/** The three sources the engine reads: the installed profiles (`parse_profiles`),
    the expected template (`parse_expected`) and the TCC override store
    (`parse_tcc`). Each parser is a method with the source's loops, proved equal
    to a specification function that walks the document recursively; the
    properties are lemmas about the specification functions. */
module Parsing {
  import opened PyValue
  import opened Payloads
  import opened Extraction
  import opened Indexing

  // Installed profiles.

  /** Installed entries in traversal order and the diagnostics printed meanwhile. */
  datatype Trace = Trace(entries: seq<ProfileEntry>, log: seq<Diagnostic>)

  const EMPTY: Trace := Trace([], [])

  /** Running `a`, then `b`: the first fault ends the run. */
  function Chain(a: Result<Trace>, b: Result<Trace>): Result<Trace> {
    match a
    case Err(f) => Err(f)
    case Ok(x) =>
      match b
      case Err(f) => Err(f)
      case Ok(y) => Ok(Trace(x.entries + y.entries, x.log + y.log))
  }

  lemma ChainAssoc(a: Result<Trace>, b: Result<Trace>, c: Result<Trace>)
    ensures Chain(Chain(a, b), c) == Chain(a, Chain(b, c))
  {
    if a.Ok? && b.Ok? && c.Ok? {
      assert (a.value.entries + b.value.entries) + c.value.entries == a.value.entries + (b.value.entries + c.value.entries);
      assert (a.value.log + b.value.log) + c.value.log == a.value.log + (b.value.log + c.value.log);
    }
  }

  lemma ChainEmpty(b: Result<Trace>)
    ensures Chain(Ok(EMPTY), b) == b
  {
    if b.Ok? {
      assert EMPTY.entries + b.value.entries == b.value.entries;
      assert EMPTY.log + b.value.log == b.value.log;
    }
  }

  /** Every entry of a trace is hashable and conforming, was found at `path`, and
      every diagnostic is one extraction prints. */
  predicate WellFormed(t: Trace, path: string) {
    (forall e <- t.entries :: e.path == path && Hashable(e.payload) && Conforms(e.payload)) &&
    (forall d <- t.log :: d.UnexpectedServiceType? || d.MalformedOnboardingBlob?)
  }

  /** The entry recorded for one payload of a profile: `payload in result`
      hashes the payload, then the profile's name and install date are read. */
  function EntryFor(path: string, level: string, profile: Value, payload: Payload): (r: Result<ProfileEntry>)
    ensures r.Ok? <==> Hashable(payload) && HasKey(profile, "ProfileDisplayName") && HasKey(profile, "ProfileInstallDate")
    ensures !Hashable(payload) ==> r == Err(Unhashable)
    ensures r.Ok? ==> r.value == ProfileEntry(payload, path, level,
      GetItem(profile, "ProfileDisplayName").value, GetItem(profile, "ProfileInstallDate").value)
  {
    if !Hashable(payload) then Err(Unhashable)
    else
      var name :- GetItem(profile, "ProfileDisplayName");
      var time :- GetItem(profile, "ProfileInstallDate");
      Ok(ProfileEntry(payload, path, level, name, time))
  }

  /** The entries for the payloads one item yields. */
  function PayloadsTrace(path: string, level: string, profile: Value, ps: seq<Payload>): Result<Trace>
    decreases |ps|
  {
    if ps == [] then Ok(EMPTY)
    else
      var entry :- EntryFor(path, level, profile, ps[0]);
      Chain(Ok(Trace([entry], [])), PayloadsTrace(path, level, profile, ps[1..]))
  }

  /** A payload list is recorded without a fault exactly when it is empty, or
      every payload hashes and the profile has its name and install date. */
  lemma {:induction false} PayloadsTraceOk(path: string, level: string, profile: Value, ps: seq<Payload>)
    ensures PayloadsTrace(path, level, profile, ps).Ok? <==> (ps == [] ||
      ((forall p <- ps :: Hashable(p)) && HasKey(profile, "ProfileDisplayName") && HasKey(profile, "ProfileInstallDate")))
    decreases |ps|
  {
    if ps != [] {
      var rest := ps[1..];
      PayloadsTraceOk(path, level, profile, rest);
      assert forall p <- ps :: p == ps[0] || p in rest;
      assert forall p <- rest :: p in ps;
    }
  }

  /** A recorded payload list yields one entry per payload, in order, and no
      diagnostics. */
  lemma {:induction false} PayloadsTraceEntries(path: string, level: string, profile: Value, ps: seq<Payload>)
    ensures PayloadsTrace(path, level, profile, ps).Ok? ==> (
      var t := PayloadsTrace(path, level, profile, ps).value;
      t.log == [] && |t.entries| == |ps| &&
      forall i :: 0 <= i < |ps| ==>
        EntryFor(path, level, profile, ps[i]).Ok? && t.entries[i] == EntryFor(path, level, profile, ps[i]).value)
    decreases |ps|
  {
    if ps != [] && PayloadsTrace(path, level, profile, ps).Ok? {
      var rest := ps[1..];
      var entry := EntryFor(path, level, profile, ps[0]).value;
      var tail := PayloadsTrace(path, level, profile, rest).value;
      assert PayloadsTrace(path, level, profile, ps) == Ok(Trace([entry] + tail.entries, [] + tail.log));
      PayloadsTraceEntries(path, level, profile, rest);
      assert forall i :: 1 <= i < |ps| ==> ps[i] == rest[i - 1];
    }
  }

  /** Every payload of an item is recorded, once and in order, unless one of them
      cannot be hashed or the profile lacks its name or install date. */
  lemma PayloadsTraceMeaning(path: string, level: string, profile: Value, ps: seq<Payload>)
    ensures PayloadsTrace(path, level, profile, ps).Ok? <==> (ps == [] ||
      ((forall p <- ps :: Hashable(p)) && HasKey(profile, "ProfileDisplayName") && HasKey(profile, "ProfileInstallDate")))
    ensures PayloadsTrace(path, level, profile, ps).Ok? ==> (
      var t := PayloadsTrace(path, level, profile, ps).value;
      t.log == [] && |t.entries| == |ps| &&
      forall i :: 0 <= i < |ps| ==> t.entries[i] == EntryFor(path, level, profile, ps[i]).value)
  {
    PayloadsTraceOk(path, level, profile, ps);
    PayloadsTraceEntries(path, level, profile, ps);
  }

  /** What one item of a profile yields: its tag and content are read, then the
      payloads are extracted. */
  function ItemPayloads(item: Value): (r: Result<Extraction>)
    ensures r.Ok? <==> (HasKey(item, "PayloadType") && HasKey(item, "PayloadContent") &&
      GetPayloads(GetItem(item, "PayloadType").value, GetItem(item, "PayloadContent").value).Ok?)
    ensures r.Ok? ==> r == GetPayloads(GetItem(item, "PayloadType").value, GetItem(item, "PayloadContent").value)
    ensures r.Ok? ==> forall p <- r.value.payloads :: Conforms(p)
    ensures r.Ok? ==> forall d <- r.value.log :: d.UnexpectedServiceType? || d.MalformedOnboardingBlob?
  {
    var tag :- GetItem(item, "PayloadType");
    var content :- GetItem(item, "PayloadContent");
    GetPayloads(tag, content)
  }

  /** The payloads one item yields. The traversal below is written for any such
      extraction, so that the proofs of its loops do not depend on the
      extraction rules; the document is read with `ItemPayloads`. */
  type Extractor = Value -> Result<Extraction>

  /** One item of a profile. */
  function ItemTrace(extract: Extractor, path: string, level: string, profile: Value, item: Value): (r: Result<Trace>)
  {
    var x :- extract(item);
    Chain(Ok(Trace([], x.log)), PayloadsTrace(path, level, profile, x.payloads))
  }

  function ItemsTrace(extract: Extractor, path: string, level: string, profile: Value, items: seq<Value>): (r: Result<Trace>)
    decreases |items|
  {
    if items == [] then Ok(EMPTY)
    else Chain(ItemTrace(extract, path, level, profile, items[0]), ItemsTrace(extract, path, level, profile, items[1..]))
  }

  /** The items of one profile (`profile['ProfileItems']`, iterated). */
  function ProfileItems(profile: Value): (r: Result<seq<Value>>)
    ensures r.Ok? <==> HasKey(profile, "ProfileItems") && Iter(GetItem(profile, "ProfileItems").value).Ok?
    ensures r.Ok? ==> r == Iter(GetItem(profile, "ProfileItems").value)
  {
    var items :- GetItem(profile, "ProfileItems");
    Iter(items)
  }

  function ProfileTrace(extract: Extractor, path: string, level: string, profile: Value): (r: Result<Trace>) {
    var list :- ProfileItems(profile);
    ItemsTrace(extract, path, level, profile, list)
  }

  function ProfilesTrace(extract: Extractor, path: string, level: string, profiles: seq<Value>): (r: Result<Trace>)
    decreases |profiles|
  {
    if profiles == [] then Ok(EMPTY)
    else Chain(ProfileTrace(extract, path, level, profiles[0]), ProfilesTrace(extract, path, level, profiles[1..]))
  }

  function LevelTrace(extract: Extractor, path: string, level: string, profiles: Value): (r: Result<Trace>)
  {
    var list :- Iter(profiles);
    ProfilesTrace(extract, path, level, list)
  }

  function LevelsTrace(extract: Extractor, path: string, levels: seq<(string, Value)>): (r: Result<Trace>)
    decreases |levels|
  {
    if levels == [] then Ok(EMPTY)
    else Chain(LevelTrace(extract, path, levels[0].0, levels[0].1), LevelsTrace(extract, path, levels[1..]))
  }

  /** Every payload of the installed-profiles document, level by level, profile
      by profile, item by item. */
  function ProfilesDocTrace(path: string, doc: Value): (r: Result<Trace>)
    ensures !doc.Dict? ==> r == Err(AttributeError)
  {
    var levels :- Items(doc);
    LevelsTrace(ItemPayloads, path, levels)
  }

  /** What `parse_profiles` returns: the traversal grouped by identity. */
  function ParseProfilesSpec(path: string, doc: Value): Result<(ProfileMap, seq<Diagnostic>)> {
    match ProfilesDocTrace(path, doc)
    case Ok(t) => Ok((Group(t.entries), t.log))
    case Err(f) => Err(f)
  }

  /** What a loop over part of the document returns, seen without the
      traversal: the fault of the specification `s` of that part, or its
      diagnostics appended to `log`. */
  predicate Reports(r: Result<(ProfileMap, seq<Diagnostic>)>, log: seq<Diagnostic>, s: Result<Trace>) {
    match s
    case Err(f) => r == Err(f)
    case Ok(t) => r.Ok? && r.value.1 == log + t.log
  }

  /** A loop over part of the document, started from the traversal `done` and
      the diagnostics `log`, ends as the specification `s` of that part says:
      with its fault, or with the entries of `s` appended and grouped. */
  predicate Continues(r: Result<(ProfileMap, seq<Diagnostic>)>, done: seq<ProfileEntry>, log: seq<Diagnostic>,
                      s: Result<Trace>, done': seq<ProfileEntry>) {
    match s
    case Err(f) => r == Err(f)
    case Ok(t) => done' == done + t.entries && r == Ok((Group(done'), log + t.log))
  }

  /** Ending a loop whose invariant ties the whole run to the state reached. */
  lemma Finish(done: seq<ProfileEntry>, log: seq<Diagnostic>, s: Result<Trace>,
               done': seq<ProfileEntry>, log': seq<Diagnostic>)
    requires Chain(Ok(Trace(done, log)), s) == Ok(Trace(done', log'))
    ensures Continues(Ok((Group(done'), log')), done, log, s, done')
    ensures Reports(Ok((Group(done'), log')), log, s)
  {
  }

  /** Failing inside a loop whose invariant ties the whole run to the state reached. */
  lemma Fail(done: seq<ProfileEntry>, log: seq<Diagnostic>, s: Result<Trace>, f: Fault, done': seq<ProfileEntry>)
    requires Chain(Ok(Trace(done, log)), s) == Err(f)
    ensures Continues(Err(f), done, log, s, done')
    ensures Reports(Err(f), log, s)
  {
  }

  /** Appending one entry to the traversal inserts it into the grouped map. */
  lemma GroupSnoc(done: seq<ProfileEntry>, e: ProfileEntry)
    ensures Group(done + [e]) == Insert(Group(done), e)
  {
    assert (done + [e])[..|done|] == done;
  }

  /** One step of the payload loop: the next payload's entry is recorded, or
      its fault ends the loop. */
  lemma PayloadStep(path: string, level: string, profile: Value, ps: seq<Payload>, q: nat,
                    done: seq<ProfileEntry>, log: seq<Diagnostic>)
    requires q < |ps|
    ensures EntryFor(path, level, profile, ps[q]).Err? ==>
      Chain(Ok(Trace(done, log)), PayloadsTrace(path, level, profile, ps[q..])) == Err(EntryFor(path, level, profile, ps[q]).fault)
    ensures EntryFor(path, level, profile, ps[q]).Ok? ==>
      Chain(Ok(Trace(done, log)), PayloadsTrace(path, level, profile, ps[q..])) ==
      Chain(Ok(Trace(done + [EntryFor(path, level, profile, ps[q]).value], log)), PayloadsTrace(path, level, profile, ps[q + 1..]))
  {
    assert ps[q..][0] == ps[q] && ps[q..][1..] == ps[q + 1..];
    var entry := EntryFor(path, level, profile, ps[q]);
    if entry.Ok? {
      ChainAssoc(Ok(Trace(done, log)), Ok(Trace([entry.value], [])), PayloadsTrace(path, level, profile, ps[q + 1..]));
      assert log + [] == log;
    }
  }

  /** One turn of the payload loop: the next payload's entry is appended to
      the list under its identity, or its fault ends the loop. */
  method NextPayload(path: string, level: string, profile: Value, ps: seq<Payload>, q: nat,
                     result: ProfileMap, log: seq<Diagnostic>, ghost done: seq<ProfileEntry>)
    returns (r: Result<ProfileMap>, ghost done': seq<ProfileEntry>)
    requires q < |ps|
    requires result == Group(done)
    ensures r.Err? ==> Chain(Ok(Trace(done, log)), PayloadsTrace(path, level, profile, ps[q..])) == Err(r.fault)
    ensures r.Ok? ==> (r.value == Group(done') &&
      Chain(Ok(Trace(done, log)), PayloadsTrace(path, level, profile, ps[q..])) ==
      Chain(Ok(Trace(done', log)), PayloadsTrace(path, level, profile, ps[q + 1..])))
  {
    var entry := EntryFor(path, level, profile, ps[q]);
    PayloadStep(path, level, profile, ps, q, done, log);
    if entry.Err? {
      return Err(entry.fault), done;
    }
    GroupSnoc(done, entry.value);
    r := Ok(Insert(result, entry.value));
    done' := done + [entry.value];
  }

  /** The innermost loop of `parse_profiles`: the payloads one item yields, each
      appended to the list under its identity. */
  method AddPayloads(path: string, level: string, profile: Value, ps: seq<Payload>,
                     result: ProfileMap, log: seq<Diagnostic>, ghost done: seq<ProfileEntry>)
    returns (r: Result<(ProfileMap, seq<Diagnostic>)>, ghost done': seq<ProfileEntry>)
    requires result == Group(done)
    ensures Continues(r, done, log, PayloadsTrace(path, level, profile, ps), done')
    ensures Reports(r, log, PayloadsTrace(path, level, profile, ps))
  {
    ghost var whole := Chain(Ok(Trace(done, log)), PayloadsTrace(path, level, profile, ps));
    var current := result;
    done' := done;
    var q := 0;
    assert ps[q..] == ps;
    while q < |ps|
      invariant 0 <= q <= |ps|
      invariant current == Group(done')
      invariant whole == Chain(Ok(Trace(done', log)), PayloadsTrace(path, level, profile, ps[q..]))
    {
      var next;
      next, done' := NextPayload(path, level, profile, ps, q, current, log, done');
      if next.Err? {
        Fail(done, log, PayloadsTrace(path, level, profile, ps), next.fault, done');
        return Err(next.fault), done';
      }
      current := next.value;
      q := q + 1;
    }
    assert done' + [] == done' && log + [] == log;
    Finish(done, log, PayloadsTrace(path, level, profile, ps), done', log);
    return Ok((current, log)), done';
  }

  /** One step of the item loop: the next item's trace follows the accumulated one. */
  lemma ItemsUnfold(extract: Extractor, path: string, level: string, profile: Value, items: seq<Value>, k: nat, acc: Trace)
    requires k < |items|
    ensures Chain(Ok(acc), ItemsTrace(extract, path, level, profile, items[k..])) ==
      Chain(Chain(Ok(acc), ItemTrace(extract, path, level, profile, items[k])), ItemsTrace(extract, path, level, profile, items[k + 1..]))
  {
    assert items[k..][0] == items[k] && items[k..][1..] == items[k + 1..];
    ChainAssoc(Ok(acc), ItemTrace(extract, path, level, profile, items[k]), ItemsTrace(extract, path, level, profile, items[k + 1..]));
  }

  /** A step that first prints `xlog` and then runs `s` ends as `s` does
      when started with `xlog` already printed. */
  lemma LogFirst(done: seq<ProfileEntry>, log: seq<Diagnostic>, xlog: seq<Diagnostic>, s: Result<Trace>,
                 r: Result<(ProfileMap, seq<Diagnostic>)>, done': seq<ProfileEntry>)
    requires Continues(r, done, log + xlog, s, done')
    ensures Continues(r, done, log, Chain(Ok(Trace([], xlog)), s), done')
  {
    if s.Ok? {
      assert log + (xlog + s.value.log) == log + xlog + s.value.log;
      assert [] + s.value.entries == s.value.entries;
    }
  }

  /** An item whose tag, content or extraction failed ends the item loop with that fault. */
  lemma ItemFailed(extract: Extractor, path: string, level: string, profile: Value, item: Value, acc: Trace)
    requires extract(item).Err?
    ensures Chain(Ok(acc), ItemTrace(extract, path, level, profile, item)) == Err(extract(item).fault)
  {
  }

  /** The body of the item loop: the item's tag and content, its payloads, and
      the payload loop. */
  method AddItem(extract: Extractor, path: string, level: string, profile: Value, item: Value,
                 result: ProfileMap, log: seq<Diagnostic>, ghost done: seq<ProfileEntry>)
    returns (r: Result<(ProfileMap, seq<Diagnostic>)>, ghost done': seq<ProfileEntry>)
    requires result == Group(done)
    ensures Continues(r, done, log, ItemTrace(extract, path, level, profile, item), done')
    ensures Reports(r, log, ItemTrace(extract, path, level, profile, item))
  {
    var x := extract(item);
    if x.Err? {
      ItemFailed(extract, path, level, profile, item, Trace(done, log));
      Fail(done, log, ItemTrace(extract, path, level, profile, item), x.fault, done);
      return Err(x.fault), done;
    }
    r, done' := AddPayloads(path, level, profile, x.value.payloads, result, log + x.value.log, done);
    ghost var rest := PayloadsTrace(path, level, profile, x.value.payloads);
    LogFirst(done, log, x.value.log, rest, r, done');
    assert ItemTrace(extract, path, level, profile, item) == Chain(Ok(Trace([], x.value.log)), rest);
  }

  /** One turn of the item loop: the run over `items[k..]` from the state
      reached ends with the fault of item `k`, or continues after it. */
  method NextItem(extract: Extractor, path: string, level: string, profile: Value, items: seq<Value>, k: nat,
                  result: ProfileMap, log: seq<Diagnostic>, ghost done: seq<ProfileEntry>)
    returns (r: Result<(ProfileMap, seq<Diagnostic>)>, ghost done': seq<ProfileEntry>)
    requires k < |items|
    requires result == Group(done)
    ensures r.Err? ==> Chain(Ok(Trace(done, log)), ItemsTrace(extract, path, level, profile, items[k..])) == Err(r.fault)
    ensures r.Ok? ==> (r.value.0 == Group(done') &&
      Chain(Ok(Trace(done, log)), ItemsTrace(extract, path, level, profile, items[k..])) ==
      Chain(Ok(Trace(done', r.value.1)), ItemsTrace(extract, path, level, profile, items[k + 1..])))
  {
    r, done' := AddItem(extract, path, level, profile, items[k], result, log, done);
    ItemsUnfold(extract, path, level, profile, items, k, Trace(done, log));
    Step(Chain(Ok(Trace(done, log)), ItemsTrace(extract, path, level, profile, items[k..])), done, log,
      ItemTrace(extract, path, level, profile, items[k]), ItemsTrace(extract, path, level, profile, items[k + 1..]), r, done');
  }

  /** The item loop of `parse_profiles`. */
  method AddItems(extract: Extractor, path: string, level: string, profile: Value, items: seq<Value>,
                  result: ProfileMap, log: seq<Diagnostic>, ghost done: seq<ProfileEntry>)
    returns (r: Result<(ProfileMap, seq<Diagnostic>)>, ghost done': seq<ProfileEntry>)
    requires result == Group(done)
    ensures Continues(r, done, log, ItemsTrace(extract, path, level, profile, items), done')
    ensures Reports(r, log, ItemsTrace(extract, path, level, profile, items))
  {
    ghost var whole := Chain(Ok(Trace(done, log)), ItemsTrace(extract, path, level, profile, items));
    var current, currentLog := result, log;
    done' := done;
    var k := 0;
    assert items[k..] == items;
    while k < |items|
      invariant 0 <= k <= |items|
      invariant current == Group(done')
      invariant whole == Chain(Ok(Trace(done', currentLog)), ItemsTrace(extract, path, level, profile, items[k..]))
    {
      var inner;
      inner, done' := NextItem(extract, path, level, profile, items, k, current, currentLog, done');
      if inner.Err? {
        Fail(done, log, ItemsTrace(extract, path, level, profile, items), inner.fault, done');
        return inner, done';
      }
      current, currentLog := inner.value.0, inner.value.1;
      k := k + 1;
    }
    assert done' + [] == done' && currentLog + [] == currentLog;
    Finish(done, log, ItemsTrace(extract, path, level, profile, items), done', currentLog);
    return Ok((current, currentLog)), done';
  }

  /** Taking in the result `r` of an inner loop over the part `s` of the
      document that follows the state reached, with `rest` after it: a fault
      ends the whole run, and otherwise the run continues from the new state. */
  lemma Step(whole: Result<Trace>, done: seq<ProfileEntry>, log: seq<Diagnostic>, s: Result<Trace>, rest: Result<Trace>,
             r: Result<(ProfileMap, seq<Diagnostic>)>, done': seq<ProfileEntry>)
    requires whole == Chain(Chain(Ok(Trace(done, log)), s), rest)
    requires Continues(r, done, log, s, done')
    ensures r.Err? ==> whole == Err(r.fault)
    ensures r.Ok? ==> r.value.0 == Group(done') && whole == Chain(Ok(Trace(done', r.value.1)), rest)
  {
  }

  lemma ProfilesUnfold(extract: Extractor, path: string, level: string, profiles: seq<Value>, j: nat, acc: Trace)
    requires j < |profiles|
    ensures Chain(Ok(acc), ProfilesTrace(extract, path, level, profiles[j..])) ==
      Chain(Chain(Ok(acc), ProfileTrace(extract, path, level, profiles[j])), ProfilesTrace(extract, path, level, profiles[j + 1..]))
  {
    assert profiles[j..][0] == profiles[j] && profiles[j..][1..] == profiles[j + 1..];
    ChainAssoc(Ok(acc), ProfileTrace(extract, path, level, profiles[j]), ProfilesTrace(extract, path, level, profiles[j + 1..]));
  }

  /** The body of the profile loop: the profile's items, and the item loop. */
  method AddProfile(extract: Extractor, path: string, level: string, profile: Value,
                    result: ProfileMap, log: seq<Diagnostic>, ghost done: seq<ProfileEntry>)
    returns (r: Result<(ProfileMap, seq<Diagnostic>)>, ghost done': seq<ProfileEntry>)
    requires result == Group(done)
    ensures Continues(r, done, log, ProfileTrace(extract, path, level, profile), done')
    ensures Reports(r, log, ProfileTrace(extract, path, level, profile))
  {
    var items := ProfileItems(profile);
    if items.Err? {
      return Err(items.fault), done;
    }
    r, done' := AddItems(extract, path, level, profile, items.value, result, log, done);
  }

  /** One turn of the profile loop: the run over `profiles[j..]` from the
      state reached ends with the fault of profile `j`, or continues after it. */
  method NextProfile(extract: Extractor, path: string, level: string, profiles: seq<Value>, j: nat,
                     result: ProfileMap, log: seq<Diagnostic>, ghost done: seq<ProfileEntry>)
    returns (r: Result<(ProfileMap, seq<Diagnostic>)>, ghost done': seq<ProfileEntry>)
    requires j < |profiles|
    requires result == Group(done)
    ensures r.Err? ==> Chain(Ok(Trace(done, log)), ProfilesTrace(extract, path, level, profiles[j..])) == Err(r.fault)
    ensures r.Ok? ==> (r.value.0 == Group(done') &&
      Chain(Ok(Trace(done, log)), ProfilesTrace(extract, path, level, profiles[j..])) ==
      Chain(Ok(Trace(done', r.value.1)), ProfilesTrace(extract, path, level, profiles[j + 1..])))
  {
    r, done' := AddProfile(extract, path, level, profiles[j], result, log, done);
    ProfilesUnfold(extract, path, level, profiles, j, Trace(done, log));
    Step(Chain(Ok(Trace(done, log)), ProfilesTrace(extract, path, level, profiles[j..])), done, log,
      ProfileTrace(extract, path, level, profiles[j]), ProfilesTrace(extract, path, level, profiles[j + 1..]), r, done');
  }

  /** The profile loop of `parse_profiles`. */
  method AddProfiles(extract: Extractor, path: string, level: string, profiles: seq<Value>,
                     result: ProfileMap, log: seq<Diagnostic>, ghost done: seq<ProfileEntry>)
    returns (r: Result<(ProfileMap, seq<Diagnostic>)>, ghost done': seq<ProfileEntry>)
    requires result == Group(done)
    ensures Continues(r, done, log, ProfilesTrace(extract, path, level, profiles), done')
    ensures Reports(r, log, ProfilesTrace(extract, path, level, profiles))
  {
    ghost var whole := Chain(Ok(Trace(done, log)), ProfilesTrace(extract, path, level, profiles));
    var current, currentLog := result, log;
    done' := done;
    var j := 0;
    assert profiles[j..] == profiles;
    while j < |profiles|
      invariant 0 <= j <= |profiles|
      invariant current == Group(done')
      invariant whole == Chain(Ok(Trace(done', currentLog)), ProfilesTrace(extract, path, level, profiles[j..]))
    {
      var inner;
      inner, done' := NextProfile(extract, path, level, profiles, j, current, currentLog, done');
      if inner.Err? {
        Fail(done, log, ProfilesTrace(extract, path, level, profiles), inner.fault, done');
        return inner, done';
      }
      current, currentLog := inner.value.0, inner.value.1;
      j := j + 1;
    }
    assert done' + [] == done' && currentLog + [] == currentLog;
    Finish(done, log, ProfilesTrace(extract, path, level, profiles), done', currentLog);
    return Ok((current, currentLog)), done';
  }

  lemma LevelsUnfold(extract: Extractor, path: string, levels: seq<(string, Value)>, i: nat, acc: Trace)
    requires i < |levels|
    ensures Chain(Ok(acc), LevelsTrace(extract, path, levels[i..])) ==
      Chain(Chain(Ok(acc), LevelTrace(extract, path, levels[i].0, levels[i].1)), LevelsTrace(extract, path, levels[i + 1..]))
  {
    assert levels[i..][0] == levels[i] && levels[i..][1..] == levels[i + 1..];
    ChainAssoc(Ok(acc), LevelTrace(extract, path, levels[i].0, levels[i].1), LevelsTrace(extract, path, levels[i + 1..]));
  }

  /** `parse_profiles`: the loop over the document's levels. */
  method ParseProfiles(path: string, doc: Value) returns (r: Result<(ProfileMap, seq<Diagnostic>)>)
    ensures r == ParseProfilesSpec(path, doc)
  {
    var levels :- Items(doc);
    ghost var whole := LevelsTrace(ItemPayloads, path, levels);
    assert ProfilesDocTrace(path, doc) == whole;
    var current: ProfileMap := [];
    var log: seq<Diagnostic> := [];
    ghost var done: seq<ProfileEntry> := [];
    ChainEmpty(whole);
    var i := 0;
    assert levels[i..] == levels;
    while i < |levels|
      invariant 0 <= i <= |levels|
      invariant current == Group(done)
      invariant whole == Chain(Ok(Trace(done, log)), LevelsTrace(ItemPayloads, path, levels[i..]))
    {
      var (level, profiles) := levels[i];
      LevelsUnfold(ItemPayloads, path, levels, i, Trace(done, log));
      var list := Iter(profiles);
      if list.Err? {
        return Err(list.fault);
      }
      ghost var before := done;
      var inner;
      inner, done := AddProfiles(ItemPayloads, path, level, list.value, current, log, done);
      Step(whole, before, log, ProfilesTrace(ItemPayloads, path, level, list.value), LevelsTrace(ItemPayloads, path, levels[i + 1..]), inner, done);
      if inner.Err? {
        return inner;
      }
      current, log := inner.value.0, inner.value.1;
      i := i + 1;
    }
    assert done + [] == done && log + [] == log;
    return Ok((current, log));
  }

  // Expected template.

  /** What one template item contributes (the body of `parse_expected`'s loop).
      An item contributes exactly when it has a type tag and its extraction
      succeeds; it contributes the payloads extracted from the whole item; it
      keeps the extraction's log, followed by the template warning exactly
      when it yields nothing; and an item of an unknown type draws only that
      warning. */
  function TemplateItem(item: Value): (r: Result<Extraction>)
    ensures r.Ok? <==> (HasKey(item, "PayloadType") && GetPayloads(GetItem(item, "PayloadType").value, item).Ok?)
    ensures r.Ok? ==> r.value.payloads == GetPayloads(GetItem(item, "PayloadType").value, item).value.payloads
    ensures r.Ok? ==> (r.value.log == GetPayloads(GetItem(item, "PayloadType").value, item).value.log +
      (if r.value.payloads == [] then [UnexpectedTemplateItem(GetItem(item, "PayloadType").value, item)] else []))
    ensures r.Ok? ==> (r.value.payloads == [] <==>
      UnexpectedTemplateItem(GetItem(item, "PayloadType").value, item) in r.value.log)
    ensures r.Ok? && !KnownTag(GetItem(item, "PayloadType").value) ==>
      r.value == Extraction([], [UnexpectedTemplateItem(GetItem(item, "PayloadType").value, item)])
  {
    var tag :- GetItem(item, "PayloadType");
    var x :- GetPayloads(tag, item);
    if |x.payloads| == 0 then Ok(Extraction([], x.log + [UnexpectedTemplateItem(tag, item)]))
    else Ok(x)
  }

  /** Running `x`, then `y`, concatenating their extractions; the first fault
      ends the run. */
  function AndThen(x: Result<Extraction>, y: Result<Extraction>): Result<Extraction> {
    match x
    case Err(f) => Err(f)
    case Ok(u) => Then(u, y)
  }

  lemma AndThenAssoc(x: Result<Extraction>, y: Result<Extraction>, z: Result<Extraction>)
    ensures AndThen(AndThen(x, y), z) == AndThen(x, AndThen(y, z))
  {
    if x.Ok? && y.Ok? && z.Ok? {
      assert (x.value.payloads + y.value.payloads) + z.value.payloads == x.value.payloads + (y.value.payloads + z.value.payloads);
      assert (x.value.log + y.value.log) + z.value.log == x.value.log + (y.value.log + z.value.log);
    }
  }

  lemma AndThenNothing(y: Result<Extraction>)
    ensures AndThen(Ok(NOTHING), y) == y
  {
    if y.Ok? {
      assert [] + y.value.payloads == y.value.payloads && [] + y.value.log == y.value.log;
    }
  }

  function TemplateItems(items: seq<Value>): Result<Extraction>
    decreases |items|
  {
    if items == [] then Ok(NOTHING)
    else AndThen(TemplateItem(items[0]), TemplateItems(items[1..]))
  }

  /** What `parse_expected` returns for the template document `doc`. */
  function ExpectedSpec(doc: Value): Result<Extraction> {
    var content :- GetItem(doc, "PayloadContent");
    var items :- Iter(content);
    TemplateItems(items)
  }

  /** The accumulated extraction `acc` followed by the rest `r`. */
  function Then(acc: Extraction, r: Result<Extraction>): Result<Extraction> {
    match r
    case Ok(x) => Ok(Join(acc, x))
    case Err(f) => Err(f)
  }

  lemma TemplateStep(items: seq<Value>, k: nat, acc: Extraction)
    requires k < |items|
    ensures AndThen(Ok(acc), TemplateItems(items[k..])) ==
      AndThen(AndThen(Ok(acc), TemplateItem(items[k])), TemplateItems(items[k + 1..]))
  {
    assert items[k..][0] == items[k] && items[k..][1..] == items[k + 1..];
    AndThenAssoc(Ok(acc), TemplateItem(items[k]), TemplateItems(items[k + 1..]));
  }

  /** `parse_expected`: the template's items in order, their payloads
      concatenated. */
  method ParseExpected(doc: Value) returns (r: Result<Extraction>)
    ensures r == ExpectedSpec(doc)
  {
    var content :- GetItem(doc, "PayloadContent");
    var items :- Iter(content);
    var result: seq<Payload> := [];
    var log: seq<Diagnostic> := [];
    var k := 0;
    assert items[k..] == items;
    AndThenNothing(TemplateItems(items));
    while k < |items|
      invariant 0 <= k <= |items|
      invariant TemplateItems(items) == AndThen(Ok(Extraction(result, log)), TemplateItems(items[k..]))
    {
      TemplateStep(items, k, Extraction(result, log));
      var x := TemplateItem(items[k]);
      if x.Err? {
        return Err(x.fault);
      }
      result := result + x.value.payloads;
      log := log + x.value.log;
      k := k + 1;
    }
    assert result + [] == result && log + [] == log;
    return Ok(Extraction(result, log));
  }

  // TCC override store.

  /** The service key under which the store keeps full-disk-access grants. */
  const ALL_FILES_SERVICE: string := "kTCCServiceSystemPolicyAllFiles"

  /** The value fields recorded for one override (`result[d] = {...}`). */
  function RecordFields(definition: Value): Value
    requires HasTccFields(definition)
  {
    Dict([
      ("CodeRequirement", GetItem(definition, "CodeRequirement").value),
      ("IdentifierType", GetItem(definition, "IdentifierType").value),
      ("Identifier", GetItem(definition, "Identifier").value),
      ("Allowed", GetItem(definition, "Allowed").value)])
  }

  /** What one service of the store records: nothing unless it holds the
      all-files key; otherwise the payload of that definition with its fields,
      after `CodeRequirementData` has been read. */
  function ServiceRecord(service: Value): (r: Result<seq<(Payload, Value)>>)
    ensures Contains(service, ALL_FILES_SERVICE) == Ok(false) ==> r == Ok([])
    ensures r.Ok? ==> |r.value| <= 1 && (|r.value| == 1 <==> Contains(service, ALL_FILES_SERVICE) == Ok(true))
    ensures r.Ok? && |r.value| == 1 ==> (HasKey(service, ALL_FILES_SERVICE) &&
      var definition := GetItem(service, ALL_FILES_SERVICE).value;
      HasKey(definition, "CodeRequirementData") && GetSystemPolicyAllFiles(definition).Ok? &&
      Hashable(r.value[0].0) && r.value[0] == (GetSystemPolicyAllFiles(definition).value, RecordFields(definition)))
  {
    var present :- Contains(service, ALL_FILES_SERVICE);
    if !present then Ok([])
    else
      var definition :- GetItem(service, ALL_FILES_SERVICE);
      var d :- GetSystemPolicyAllFiles(definition);
      var _ :- GetItem(definition, "CodeRequirementData");
      if !Hashable(d) then Err(Unhashable)
      else Ok([(d, RecordFields(definition))])
  }

  function ServiceRecords(services: seq<Value>): Result<seq<(Payload, Value)>>
    decreases |services|
  {
    if services == [] then Ok([])
    else
      var first :- ServiceRecord(services[0]);
      var rest :- ServiceRecords(services[1..]);
      Ok(first + rest)
  }

  /** The records `parse_tcc` stores, in order; an unreadable store (`None`)
      and an empty one give none. */
  function TccRecords(store: Option<Value>): Result<seq<(Payload, Value)>> {
    match store
    case None => Ok([])
    case Some(tcc) =>
      if !Truthy(tcc) then Ok([])
      else
        var services :- Values(tcc);
        ServiceRecords(services)
  }

  /** What `parse_tcc` returns for the store `store` (`None` when reading it
      raised IOError). */
  function ParseTccSpec(store: Option<Value>): Result<(TccMap, seq<Diagnostic>)> {
    match TccRecords(store)
    case Ok(records) => Ok((PutAll(records), if store.None? then [OverrideStoreMissing] else []))
    case Err(f) => Err(f)
  }

  /** Before the service loop, nothing is gathered and every service remains. */
  lemma RecordsStart(services: seq<Value>)
    ensures Prepend([], ServiceRecords(services[0..])) == ServiceRecords(services)
  {
    assert services[0..] == services;
    if ServiceRecords(services).Ok? {
      assert [] + ServiceRecords(services).value == ServiceRecords(services).value;
    }
  }

  /** One service moves from the remaining ones to the records gathered so far. */
  lemma RecordsStep(records: seq<(Payload, Value)>, services: seq<Value>, k: nat)
    requires k < |services|
    ensures Prepend(records, ServiceRecords(services[k..])) ==
      match ServiceRecord(services[k])
      case Err(f) => Err(f)
      case Ok(first) => Prepend(records + first, ServiceRecords(services[k + 1..]))
  {
    assert services[k..][0] == services[k] && services[k..][1..] == services[k + 1..];
    var rest := ServiceRecords(services[k + 1..]);
    if ServiceRecord(services[k]).Ok? && rest.Ok? {
      var first := ServiceRecord(services[k]).value;
      assert records + (first + rest.value) == (records + first) + rest.value;
    }
  }

  /** One turn of the service loop: the service's record, if any, is stored
      under its payload, or its fault ends the loop. */
  method NextService(services: seq<Value>, k: nat, result: TccMap, ghost records: seq<(Payload, Value)>)
    returns (r: Result<TccMap>, ghost records': seq<(Payload, Value)>)
    requires k < |services|
    requires result == PutAll(records)
    ensures r.Err? ==> Prepend(records, ServiceRecords(services[k..])) == Err(r.fault)
    ensures r.Ok? ==> (r.value == PutAll(records') &&
      Prepend(records, ServiceRecords(services[k..])) == Prepend(records', ServiceRecords(services[k + 1..])))
  {
    var record := ServiceRecord(services[k]);
    RecordsStep(records, services, k);
    if record.Err? {
      return Err(record.fault), records;
    }
    if record.value != [] {
      var (d, fields) := record.value[0];
      assert record.value == [(d, fields)];
      assert (records + [(d, fields)])[..|records|] == records;
      r := Ok(Put(result, d, fields));
    } else {
      assert records + [] == records;
      r := Ok(result);
    }
    records' := records + record.value;
  }

  /** `parse_tcc` after the store has been read: the loop over its services,
      storing each record under its payload. */
  method ParseTcc(store: Option<Value>) returns (r: Result<(TccMap, seq<Diagnostic>)>)
    ensures r == ParseTccSpec(store)
    ensures store.None? ==> r == Ok(([], [OverrideStoreMissing]))
  {
    if store.None? {
      return Ok(([], [OverrideStoreMissing]));
    }
    var tcc := store.value;
    var result: TccMap := [];
    if !Truthy(tcc) {
      return Ok((result, []));
    }
    var services :- Values(tcc);
    ghost var records: seq<(Payload, Value)> := [];
    var k := 0;
    assert services[k..] == services;
    RecordsStart(services);
    while k < |services|
      invariant 0 <= k <= |services|
      invariant result == PutAll(records)
      invariant ServiceRecords(services) == Prepend(records, ServiceRecords(services[k..]))
    {
      var next;
      next, records := NextService(services, k, result, records);
      if next.Err? {
        return Err(next.fault);
      }
      result := next.value;
      k := k + 1;
    }
    assert records + [] == records;
    return Ok((result, []));
  }

  // Properties of the installed-profiles traversal.

  lemma ChainWellFormed(a: Result<Trace>, b: Result<Trace>, path: string)
    requires a.Ok? ==> WellFormed(a.value, path)
    requires b.Ok? ==> WellFormed(b.value, path)
    ensures Chain(a, b).Ok? ==> WellFormed(Chain(a, b).value, path)
  {
  }

  lemma {:induction false} PayloadsWellFormed(path: string, level: string, profile: Value, ps: seq<Payload>)
    requires forall p <- ps :: Conforms(p)
    ensures PayloadsTrace(path, level, profile, ps).Ok? ==> WellFormed(PayloadsTrace(path, level, profile, ps).value, path)
  {
    var r := PayloadsTrace(path, level, profile, ps);
    PayloadsTraceMeaning(path, level, profile, ps);
    if r.Ok? {
      forall e <- r.value.entries ensures e.path == path && Hashable(e.payload) && Conforms(e.payload) {
        var i :| 0 <= i < |ps| && r.value.entries[i] == e;
        assert ps[i] in ps;
      }
    }
  }

  lemma ItemWellFormed(path: string, level: string, profile: Value, item: Value)
    ensures ItemTrace(ItemPayloads, path, level, profile, item).Ok? ==> WellFormed(ItemTrace(ItemPayloads, path, level, profile, item).value, path)
  {
    var x := ItemPayloads(item);
    if x.Ok? {
      PayloadsWellFormed(path, level, profile, x.value.payloads);
      ChainWellFormed(Ok(Trace([], x.value.log)), PayloadsTrace(path, level, profile, x.value.payloads), path);
    }
  }

  lemma {:induction false} ItemsWellFormed(path: string, level: string, profile: Value, items: seq<Value>)
    ensures ItemsTrace(ItemPayloads, path, level, profile, items).Ok? ==> WellFormed(ItemsTrace(ItemPayloads, path, level, profile, items).value, path)
    decreases |items|
  {
    if items != [] {
      ItemWellFormed(path, level, profile, items[0]);
      ItemsWellFormed(path, level, profile, items[1..]);
      ChainWellFormed(ItemTrace(ItemPayloads, path, level, profile, items[0]), ItemsTrace(ItemPayloads, path, level, profile, items[1..]), path);
    }
  }

  lemma {:induction false} ProfilesWellFormed(path: string, level: string, profiles: seq<Value>)
    ensures ProfilesTrace(ItemPayloads, path, level, profiles).Ok? ==> WellFormed(ProfilesTrace(ItemPayloads, path, level, profiles).value, path)
    decreases |profiles|
  {
    if profiles != [] {
      var list := ProfileItems(profiles[0]);
      if list.Ok? {
        ItemsWellFormed(path, level, profiles[0], list.value);
      }
      ProfilesWellFormed(path, level, profiles[1..]);
      ChainWellFormed(ProfileTrace(ItemPayloads, path, level, profiles[0]), ProfilesTrace(ItemPayloads, path, level, profiles[1..]), path);
    }
  }

  lemma {:induction false} LevelsWellFormed(path: string, levels: seq<(string, Value)>)
    ensures LevelsTrace(ItemPayloads, path, levels).Ok? ==> WellFormed(LevelsTrace(ItemPayloads, path, levels).value, path)
    decreases |levels|
  {
    if levels != [] {
      var list := Iter(levels[0].1);
      if list.Ok? {
        ProfilesWellFormed(path, levels[0].0, list.value);
      }
      LevelsWellFormed(path, levels[1..]);
      ChainWellFormed(LevelTrace(ItemPayloads, path, levels[0].0, levels[0].1), LevelsTrace(ItemPayloads, path, levels[1..]), path);
    }
  }

  /** Every installed entry was found at `path`, carries a conforming payload that
      can be hashed, and every diagnostic is one extraction prints. */
  lemma InstalledEntriesWellFormed(path: string, doc: Value)
    ensures ProfilesDocTrace(path, doc).Ok? ==> WellFormed(ProfilesDocTrace(path, doc).value, path)
  {
    if doc.Dict? {
      LevelsWellFormed(path, doc.entries);
    }
  }

  /** The map `parse_profiles` returns groups the traversal: keys pairwise
      unequal, under each key exactly the entries equal to it in traversal order,
      no empty list, and every key a hashable conforming payload. */
  lemma ParseProfilesGroups(path: string, doc: Value)
    ensures ParseProfilesSpec(path, doc).Ok? ==> (
      var entries := ProfilesDocTrace(path, doc).value.entries;
      var m := ParseProfilesSpec(path, doc).value.0;
      Grouped(m, entries) && forall i :: 0 <= i < |m| ==> Hashable(m[i].0) && Conforms(m[i].0))
  {
    var t := ProfilesDocTrace(path, doc);
    if t.Ok? {
      InstalledEntriesWellFormed(path, doc);
      GroupKeysSound(t.value.entries);
    }
  }

  /** Grouping entries whose payloads hash and conform keys them by such payloads. */
  lemma GroupKeysSound(entries: seq<ProfileEntry>)
    requires forall e <- entries :: Hashable(e.payload) && Conforms(e.payload)
    ensures Grouped(Group(entries), entries)
    ensures forall i :: 0 <= i < |Group(entries)| ==> Hashable(Group(entries)[i].0) && Conforms(Group(entries)[i].0)
  {
    GroupSpec(entries);
    var m := Group(entries);
    forall i | 0 <= i < |m| ensures Hashable(m[i].0) && Conforms(m[i].0) {
      GroupListsAre(entries);
      CandidatesIn(entries, m[i].0, m[i].1[0]);
    }
  }

  // Properties of the template.

  /** `parse_expected` over two runs of items is the concatenation of the two. */
  lemma {:induction false} TemplateItemsAppend(a: seq<Value>, b: seq<Value>)
    ensures TemplateItems(a + b) == AndThen(TemplateItems(a), TemplateItems(b))
    decreases |a|
  {
    if a == [] {
      assert a + b == b;
      AndThenNothing(TemplateItems(b));
    } else {
      assert (a + b)[0] == a[0] && (a + b)[1..] == a[1..] + b;
      TemplateItemsAppend(a[1..], b);
      AndThenAssoc(TemplateItem(a[0]), TemplateItems(a[1..]), TemplateItems(b));
    }
  }

  /** A template of one item gives that item's extraction. */
  lemma TemplateSingleItem(item: Value)
    ensures TemplateItems([item]) == TemplateItem(item)
  {
    assert [item][1..] == [];
    if TemplateItem(item).Ok? {
      var x := TemplateItem(item).value;
      assert x.payloads + [] == x.payloads && x.log + [] == x.log;
    }
  }

  /** Every expected payload conforms, and every diagnostic is one extraction or
      the template check prints. */
  lemma {:induction false} TemplateConforms(items: seq<Value>)
    ensures TemplateItems(items).Ok? ==> forall p <- TemplateItems(items).value.payloads :: Conforms(p)
    ensures TemplateItems(items).Ok? ==> forall d <- TemplateItems(items).value.log ::
      d.UnexpectedServiceType? || d.MalformedOnboardingBlob? || d.UnexpectedTemplateItem?
    decreases |items|
  {
    if items != [] {
      TemplateConforms(items[1..]);
    }
  }

  // Properties of the override store.

  /** The fields recorded for a definition compare equal to the value of the
      payload built from that same definition: the key order differs, and
      dictionary comparison ignores it. */
  lemma RecordMatchesPayload(definition: Value)
    requires HasTccFields(definition)
    ensures PyEq(RecordFields(definition), GetSystemPolicyAllFiles(definition).value.payload)
    ensures PyEq(GetSystemPolicyAllFiles(definition).value.payload, RecordFields(definition))
  {
    var es := GetSystemPolicyAllFiles(definition).value.payload.entries;
    assert es == [
      ("Allowed", GetItem(definition, "Allowed").value), ("CodeRequirement", GetItem(definition, "CodeRequirement").value),
      ("IdentifierType", GetItem(definition, "IdentifierType").value), ("Identifier", GetItem(definition, "Identifier").value)];
    var perm: seq<nat> := [1, 2, 3, 0];
    assert forall i :: 0 <= i < |es| ==> i in perm by {
      assert perm[0] == 1 && perm[1] == 2 && perm[2] == 3 && perm[3] == 0;
    }
    DictOrderIrrelevant(es, perm);
    assert seq(|es|, k requires 0 <= k < |es| => es[perm[k]]) == RecordFields(definition).entries;
    PyEqSymmetric(GetSystemPolicyAllFiles(definition).value.payload, RecordFields(definition));
  }

  /** One service of the store records nothing, or, when it holds the all-files
      key, the hashable SystemPolicyAllFiles payload of that definition with
      fields equal to its value. */
  lemma ServiceRecordMeaning(service: Value)
    ensures ServiceRecord(service).Ok? ==> (
      var rs := ServiceRecord(service).value;
      |rs| <= 1 && (|rs| == 1 <==> Contains(service, ALL_FILES_SERVICE) == Ok(true)))
    ensures ServiceRecord(service).Ok? && |ServiceRecord(service).value| == 1 ==> (
      var definition := GetItem(service, ALL_FILES_SERVICE).value;
      var (d, fields) := ServiceRecord(service).value[0];
      HasTccFields(definition) && HasKey(definition, "CodeRequirementData") &&
      d == GetSystemPolicyAllFiles(definition).value && fields == RecordFields(definition) &&
      Hashable(d) && Conforms(d) && d.kind.SystemPolicyAllFiles? && PyEq(fields, d.payload))
    ensures Contains(service, ALL_FILES_SERVICE) == Ok(false) ==> ServiceRecord(service) == Ok([])
  {
    var r := ServiceRecord(service);
    if r.Ok? && |r.value| == 1 {
      RecordMatchesPayload(GetItem(service, ALL_FILES_SERVICE).value);
    }
  }

  /** The number of services holding the all-files key. */
  function Grants(services: seq<Value>): nat
    decreases |services|
  {
    if services == [] then 0
    else (if Contains(services[0], ALL_FILES_SERVICE) == Ok(true) then 1 else 0) + Grants(services[1..])
  }

  /** The store records exactly one entry per service holding the all-files key,
      each keyed by a hashable SystemPolicyAllFiles payload whose value equals
      the recorded fields. */
  lemma {:induction false} ServiceRecordsMeaning(services: seq<Value>)
    ensures ServiceRecords(services).Ok? ==> |ServiceRecords(services).value| == Grants(services)
    ensures ServiceRecords(services).Ok? ==> forall rec <- ServiceRecords(services).value ::
      Hashable(rec.0) && Conforms(rec.0) && rec.0.kind.SystemPolicyAllFiles? && PyEq(rec.1, rec.0.payload)
    decreases |services|
  {
    if services != [] {
      ServiceRecordMeaning(services[0]);
      ServiceRecordsMeaning(services[1..]);
    }
  }
}
