/** Dictionaries keyed by payload identity, as the engine builds them: the
    installed payloads grouped by identity, and the override store's records.
    A Python dictionary looks keys up with `==` (here PayloadEq), keeps the key
    object first inserted, and keeps insertion order; an association list with
    pairwise unequal keys models exactly that. */
module Indexing {
  import opened PyValue
  import opened Payloads

  /** One installed payload and where it was found. */
  datatype ProfileEntry = ProfileEntry(payload: Payload, path: string, level: string, name: Value, time: Value)

  /** A dictionary keyed by payload identity, in insertion order. */
  type IdMap<V> = seq<(Payload, V)>

  /** The position of the key equal to `p` (the first one; with pairwise unequal
      keys, the only one). */
  function FindKey<V>(m: IdMap<V>, p: Payload): (r: Option<nat>)
    ensures r.Some? ==> r.value < |m| && PayloadEq(m[r.value].0, p)
    ensures r.Some? ==> forall j :: 0 <= j < r.value ==> !PayloadEq(m[j].0, p)
    ensures r.None? <==> forall i :: 0 <= i < |m| ==> !PayloadEq(m[i].0, p)
  {
    if m == [] then None
    else if PayloadEq(m[0].0, p) then Some(0)
    else match FindKey(m[1..], p)
      case Some(k) => Some(k + 1)
      case None => None
  }

  /** No two keys are equal: the invariant of every Python dictionary. */
  predicate DistinctKeys<V>(m: IdMap<V>) {
    forall i, j :: 0 <= i < j < |m| ==> !PayloadEq(m[i].0, m[j].0)
  }

  lemma {:induction false} FindKeySameKeys<V, W>(m: IdMap<V>, n: IdMap<W>, p: Payload)
    requires |m| == |n| && forall i :: 0 <= i < |m| ==> m[i].0 == n[i].0
    ensures FindKey(m, p) == FindKey(n, p)
  {
    if m != [] {
      FindKeySameKeys(m[1..], n[1..], p);
    }
  }

  /** Inserting a new key at the end: a payload that already had a key keeps
      it, and any other finds the new key exactly when it equals it. */
  lemma FindKeyAppend<V>(m: IdMap<V>, key: Payload, v: V, p: Payload)
    ensures FindKey(m + [(key, v)], p) ==
      if FindKey(m, p).Some? then FindKey(m, p)
      else if PayloadEq(key, p) then Some(|m|) else None
  {
    var m' := m + [(key, v)];
    assert forall j :: 0 <= j < |m| ==> m'[j] == m[j];
    match FindKey(m, p)
    case Some(k) =>
      FindKeyFirst(m', k, p);
    case None =>
      if PayloadEq(key, p) {
        assert m'[|m|] == (key, v);
        FindKeyFirst(m', |m|, p);
      }
  }

  /** The first key equal to `p` is the one FindKey finds. */
  lemma FindKeyFirst<V>(m: IdMap<V>, i: nat, p: Payload)
    requires i < |m| && PayloadEq(m[i].0, p)
    requires forall j :: 0 <= j < i ==> !PayloadEq(m[j].0, p)
    ensures FindKey(m, p) == Some(i)
  {
  }

  /** A key of `m` equal to `p` is the one FindKey finds. */
  lemma {:induction false} FindKeyUnique<V>(m: IdMap<V>, i: nat, p: Payload)
    requires DistinctKeys(m) && i < |m| && PayloadEq(m[i].0, p)
    ensures FindKey(m, p) == Some(i)
  {
    var k := FindKey(m, p).value;
    if k != i {
      PayloadEqSymmetric(m[k].0, p);
      PayloadEqTransitive(m[i].0, p, m[k].0);
      if k < i {
        PayloadEqSymmetric(m[i].0, m[k].0);
      }
      assert false;
    }
  }

  // The installed payloads grouped by identity (`parse_profiles`).

  type ProfileMap = IdMap<seq<ProfileEntry>>

  /** `result[payload] = result.get(payload, []) + [entry]`. */
  function Insert(m: ProfileMap, e: ProfileEntry): ProfileMap {
    match FindKey(m, e.payload)
    case Some(k) => m[k := (m[k].0, m[k].1 + [e])]
    case None => m + [(e.payload, [e])]
  }

  /** The dictionary built by inserting `entries` one after the other. */
  function Group(entries: seq<ProfileEntry>): ProfileMap
    decreases |entries|
  {
    if entries == [] then []
    else Insert(Group(entries[..|entries| - 1]), entries[|entries| - 1])
  }

  /** The entries whose payload equals `p`, in order. */
  function Candidates(entries: seq<ProfileEntry>, p: Payload): seq<ProfileEntry>
    decreases |entries|
  {
    if entries == [] then []
    else
      var last := entries[|entries| - 1];
      Candidates(entries[..|entries| - 1], p) + (if PayloadEq(last.payload, p) then [last] else [])
  }

  lemma {:induction false} CandidatesRespectEq(entries: seq<ProfileEntry>, p: Payload, q: Payload)
    requires PayloadEq(p, q)
    ensures Candidates(entries, p) == Candidates(entries, q)
    decreases |entries|
  {
    if entries != [] {
      var last := entries[|entries| - 1];
      CandidatesRespectEq(entries[..|entries| - 1], p, q);
      if PayloadEq(last.payload, p) {
        PayloadEqTransitive(last.payload, p, q);
      }
      if PayloadEq(last.payload, q) {
        PayloadEqSymmetric(p, q);
        PayloadEqTransitive(last.payload, q, p);
      }
    }
  }

  /** Every list is nonempty and starts with the entry its key came from. */
  predicate ListHeads(m: ProfileMap) {
    forall i :: 0 <= i < |m| ==> m[i].1 != [] && m[i].0 == m[i].1[0].payload
  }

  /** Under each key, exactly the entries equal to that key, in traversal order. */
  predicate ListsAre(m: ProfileMap, entries: seq<ProfileEntry>) {
    forall i :: 0 <= i < |m| ==> m[i].1 == Candidates(entries, m[i].0)
  }

  /** A payload no key equals has no entries. */
  ghost predicate AbsentEmpty(m: ProfileMap, entries: seq<ProfileEntry>) {
    forall p :: FindKey(m, p).None? ==> Candidates(entries, p) == []
  }

  /** What grouping `entries` guarantees of the dictionary `m`. */
  ghost predicate Grouped(m: ProfileMap, entries: seq<ProfileEntry>) {
    DistinctKeys(m) && ListHeads(m) && ListsAre(m, entries) && AbsentEmpty(m, entries)
  }

  lemma {:induction false} CandidatesSnoc(prefix: seq<ProfileEntry>, e: ProfileEntry, q: Payload)
    ensures Candidates(prefix + [e], q) ==
      Candidates(prefix, q) + (if PayloadEq(e.payload, q) then [e] else [])
  {
    var entries := prefix + [e];
    assert entries[..|entries| - 1] == prefix;
  }

  /** Appending to the list of an existing key keeps the keys apart. */
  lemma {:induction false} OtherKeyUnequal(m: ProfileMap, prefix: seq<ProfileEntry>, e: ProfileEntry, k: nat, i: nat)
    requires DistinctKeys(m) && FindKey(m, e.payload) == Some(k)
    requires i < |m| && i != k
    ensures !PayloadEq(e.payload, m[i].0)
  {
    if PayloadEq(e.payload, m[i].0) {
      PayloadEqTransitive(m[k].0, e.payload, m[i].0);
      if i < k {
        PayloadEqSymmetric(m[k].0, m[i].0);
      }
      assert false;
    }
  }

  /** Appending to the list of an existing key keeps the keys apart. */
  lemma {:induction false} ExistingKeysApart(m: ProfileMap, prefix: seq<ProfileEntry>, e: ProfileEntry, k: nat)
    requires DistinctKeys(m) && FindKey(m, e.payload) == Some(k)
    ensures DistinctKeys(Insert(m, e))
  {
    assert Insert(m, e) == m[k := (m[k].0, m[k].1 + [e])];
  }

  lemma {:induction false} ExistingListHeads(m: ProfileMap, prefix: seq<ProfileEntry>, e: ProfileEntry, k: nat)
    requires ListHeads(m) && FindKey(m, e.payload) == Some(k)
    ensures forall i :: 0 <= i < |Insert(m, e)| ==>
      Insert(m, e)[i].1 != [] && Insert(m, e)[i].0 == Insert(m, e)[i].1[0].payload
  {
    assert Insert(m, e) == m[k := (m[k].0, m[k].1 + [e])];
  }


  /** A new key is unequal to the old ones. */
  lemma {:induction false} NewKeysApart(m: ProfileMap, prefix: seq<ProfileEntry>, e: ProfileEntry)
    requires DistinctKeys(m) && FindKey(m, e.payload).None?
    ensures DistinctKeys(Insert(m, e))
  {
    assert Insert(m, e) == m + [(e.payload, [e])];
  }

  lemma {:induction false} NewListHeads(m: ProfileMap, prefix: seq<ProfileEntry>, e: ProfileEntry)
    requires ListHeads(m) && FindKey(m, e.payload).None?
    ensures forall i :: 0 <= i < |Insert(m, e)| ==>
      Insert(m, e)[i].1 != [] && Insert(m, e)[i].0 == Insert(m, e)[i].1[0].payload
  {
    assert Insert(m, e) == m + [(e.payload, [e])];
  }


  /** Appending to the list of an existing key: the lists stay the candidates. */
  lemma {:induction false} ExistingLists(m: ProfileMap, prefix: seq<ProfileEntry>, e: ProfileEntry, k: nat)
    requires DistinctKeys(m) && ListsAre(m, prefix) && FindKey(m, e.payload) == Some(k)
    ensures forall i :: 0 <= i < |Insert(m, e)| ==>
      Insert(m, e)[i].1 == Candidates(prefix + [e], Insert(m, e)[i].0)
  {
    var m' := Insert(m, e);
    assert m' == m[k := (m[k].0, m[k].1 + [e])];
    forall i | 0 <= i < |m'|
      ensures m'[i].1 == Candidates(prefix + [e], m'[i].0)
    {
      CandidatesSnoc(prefix, e, m[i].0);
      if i == k {
        PayloadEqSymmetric(m[k].0, e.payload);
      } else {
        OtherKeyUnequal(m, prefix, e, k, i);
      }
    }
  }

  /** Appending to the list of an existing key: absent payloads stay without entries. */
  lemma {:induction false} ExistingAbsent(m: ProfileMap, prefix: seq<ProfileEntry>, e: ProfileEntry, k: nat)
    requires AbsentEmpty(m, prefix) && FindKey(m, e.payload) == Some(k)
    ensures forall p :: FindKey(Insert(m, e), p).None? ==> Candidates(prefix + [e], p) == []
  {
    var m' := Insert(m, e);
    assert m' == m[k := (m[k].0, m[k].1 + [e])];
    forall p | FindKey(m', p).None? ensures Candidates(prefix + [e], p) == [] {
      FindKeySameKeys(m, m', p);
      CandidatesSnoc(prefix, e, p);
      if PayloadEq(e.payload, p) {
        PayloadEqTransitive(m[k].0, e.payload, p);
      }
    }
  }

  /** Inserting an entry whose payload is already a key. */
  lemma {:induction false} InsertExisting(m: ProfileMap, prefix: seq<ProfileEntry>, e: ProfileEntry, k: nat)
    requires Grouped(m, prefix) && FindKey(m, e.payload) == Some(k)
    ensures Grouped(Insert(m, e), prefix + [e])
  {
    ExistingKeysApart(m, prefix, e, k);
    ExistingListHeads(m, prefix, e, k);
    ExistingLists(m, prefix, e, k);
    ExistingAbsent(m, prefix, e, k);
  }

  /** A new key: the lists stay the candidates. */
  lemma {:induction false} NewLists(m: ProfileMap, prefix: seq<ProfileEntry>, e: ProfileEntry)
    requires ListsAre(m, prefix) && AbsentEmpty(m, prefix) && FindKey(m, e.payload).None?
    ensures forall i :: 0 <= i < |Insert(m, e)| ==>
      Insert(m, e)[i].1 == Candidates(prefix + [e], Insert(m, e)[i].0)
  {
    var m' := Insert(m, e);
    assert m' == m + [(e.payload, [e])];
    forall i | 0 <= i < |m'|
      ensures m'[i].1 == Candidates(prefix + [e], m'[i].0)
    {
      CandidatesSnoc(prefix, e, m'[i].0);
      if i == |m| {
        PayloadEqReflexive(e.payload);
      } else if PayloadEq(e.payload, m[i].0) {
        PayloadEqSymmetric(e.payload, m[i].0);
      }
    }
  }

  /** A new key: absent payloads stay without entries. */
  lemma {:induction false} NewAbsent(m: ProfileMap, prefix: seq<ProfileEntry>, e: ProfileEntry)
    requires AbsentEmpty(m, prefix) && FindKey(m, e.payload).None?
    ensures forall p :: FindKey(Insert(m, e), p).None? ==> Candidates(prefix + [e], p) == []
  {
    var m' := Insert(m, e);
    assert m' == m + [(e.payload, [e])];
    forall p | FindKey(m', p).None? ensures Candidates(prefix + [e], p) == [] {
      FindKeyAppend(m, e.payload, [e], p);
      CandidatesSnoc(prefix, e, p);
    }
  }

  /** Inserting an entry whose payload is a new key. */
  lemma {:induction false} InsertNew(m: ProfileMap, prefix: seq<ProfileEntry>, e: ProfileEntry)
    requires Grouped(m, prefix) && FindKey(m, e.payload).None?
    ensures Grouped(Insert(m, e), prefix + [e])
  {
    NewKeysApart(m, prefix, e);
    NewListHeads(m, prefix, e);
    NewLists(m, prefix, e);
    NewAbsent(m, prefix, e);
  }

  lemma {:induction false} GroupSpec(entries: seq<ProfileEntry>)
    ensures Grouped(Group(entries), entries)
    decreases |entries|
  {
    if entries != [] {
      var prefix := entries[..|entries| - 1];
      var e := entries[|entries| - 1];
      assert entries == prefix + [e];
      GroupSpec(prefix);
      match FindKey(Group(prefix), e.payload)
      case Some(k) => InsertExisting(Group(prefix), prefix, e, k);
      case None => InsertNew(Group(prefix), prefix, e);
    }
  }

  /** The list the dictionary holds for `p` is exactly the entries equal to `p`,
      in traversal order; `p` is absent exactly when no entry equals it. */
  lemma {:induction false} LookupGroup(entries: seq<ProfileEntry>, p: Payload)
    ensures FindKey(Group(entries), p).None? <==> Candidates(entries, p) == []
    ensures FindKey(Group(entries), p).Some? ==>
      Group(entries)[FindKey(Group(entries), p).value].1 == Candidates(entries, p)
  {
    GroupSpec(entries);
    var m := Group(entries);
    if FindKey(m, p).Some? {
      var k := FindKey(m, p).value;
      CandidatesRespectEq(entries, m[k].0, p);
    }
  }

  lemma {:induction false} CandidatesContain(entries: seq<ProfileEntry>, t: nat)
    requires t < |entries|
    ensures entries[t] in Candidates(entries, entries[t].payload)
    decreases |entries|
  {
    var n := |entries| - 1;
    if t == n {
      PayloadEqReflexive(entries[t].payload);
    } else {
      CandidatesContain(entries[..n], t);
    }
  }

  lemma {:induction false} GroupKeysApart(entries: seq<ProfileEntry>)
    ensures DistinctKeys(Group(entries))
  {
    GroupSpec(entries);
  }

  lemma {:induction false} GroupListsAre(entries: seq<ProfileEntry>)
    ensures ListsAre(Group(entries), entries)
  {
    GroupSpec(entries);
  }

  /** Every installed entry sits under exactly one key: the key equal to it. */
  lemma {:induction false} EveryEntryGroupedOnce(entries: seq<ProfileEntry>, t: nat)
    requires t < |entries|
    ensures FindKey(Group(entries), entries[t].payload).Some?
    ensures entries[t] in Group(entries)[FindKey(Group(entries), entries[t].payload).value].1
    ensures forall i :: 0 <= i < |Group(entries)| && entries[t] in Group(entries)[i].1 ==>
      i == FindKey(Group(entries), entries[t].payload).value
  {
    var m := Group(entries);
    var p := entries[t].payload;
    LookupGroup(entries, p);
    CandidatesContain(entries, t);
    GroupKeysApart(entries);
    GroupListsAre(entries);
    forall i | 0 <= i < |m| && entries[t] in m[i].1 ensures i == FindKey(m, p).value {
      CandidatesEqual(entries, m[i].0, entries[t]);
      FindKeyUnique(m, i, p);
    }
  }

  /** The candidates of `p` are drawn from the entries. */
  lemma {:induction false} CandidatesIn(entries: seq<ProfileEntry>, p: Payload, e: ProfileEntry)
    requires e in Candidates(entries, p)
    ensures e in entries
    decreases |entries|
  {
    var n := |entries| - 1;
    if e in Candidates(entries[..n], p) {
      CandidatesIn(entries[..n], p, e);
      assert entries[..n] <= entries;
    }
  }

  /** An entry listed among the candidates of `p` equals `p`. */
  lemma {:induction false} CandidatesEqual(entries: seq<ProfileEntry>, p: Payload, e: ProfileEntry)
    requires e in Candidates(entries, p)
    ensures PayloadEq(p, e.payload)
    decreases |entries|
  {
    var n := |entries| - 1;
    if e in Candidates(entries[..n], p) {
      CandidatesEqual(entries[..n], p, e);
    } else {
      PayloadEqSymmetric(e.payload, p);
    }
  }

  // The override store's records (`parse_tcc`).

  type TccMap = IdMap<Value>

  /** `result[d] = fields`: a new key is appended, an equal key keeps its place
      and its original key object and takes the new value. */
  function Put(m: TccMap, d: Payload, fields: Value): TccMap {
    match FindKey(m, d)
    case Some(k) => m[k := (m[k].0, fields)]
    case None => m + [(d, fields)]
  }

  function PutAll(records: seq<(Payload, Value)>): TccMap
    decreases |records|
  {
    if records == [] then []
    else Put(PutAll(records[..|records| - 1]), records[|records| - 1].0, records[|records| - 1].1)
  }

  /** The value of the last record equal to `p`, if any. */
  function LastRecord(records: seq<(Payload, Value)>, p: Payload): Option<Value>
    decreases |records|
  {
    if records == [] then None
    else if PayloadEq(records[|records| - 1].0, p) then Some(records[|records| - 1].1)
    else LastRecord(records[..|records| - 1], p)
  }

  /** The value stored for `p` (`tcc[p]` when `p in tcc`). */
  function Stored(m: TccMap, p: Payload): Option<Value> {
    match FindKey(m, p)
    case Some(k) => Some(m[k].1)
    case None => None
  }

  /** Filling the store map keeps keys pairwise unequal, and looking up `p`
      gives the value of the last record equal to `p`: later records overwrite. */
  lemma {:induction false} PutAllSpec(records: seq<(Payload, Value)>)
    ensures DistinctKeys(PutAll(records))
    ensures forall p :: Stored(PutAll(records), p) == LastRecord(records, p)
    decreases |records|
  {
    if records == [] {
      return;
    }
    var prefix := records[..|records| - 1];
    var (d, v) := records[|records| - 1];
    PutAllSpec(prefix);
    var m := PutAll(prefix);
    var m' := PutAll(records);
    assert m' == Put(m, d, v);
    match FindKey(m, d)
    case Some(k) =>
      assert m' == m[k := (m[k].0, v)];
      forall p ensures Stored(m', p) == LastRecord(records, p) {
        FindKeySameKeys(m, m', p);
        if PayloadEq(d, p) {
          PayloadEqTransitive(m[k].0, d, p);
          FindKeyUnique(m, k, p);
        } else if FindKey(m, p) == Some(k) {
          PayloadEqSymmetric(m[k].0, d);
          PayloadEqSymmetric(m[k].0, p);
          PayloadEqTransitive(d, m[k].0, p);
        }
      }
    case None =>
      assert m' == m + [(d, v)];
      forall i | 0 <= i < |m| ensures !PayloadEq(m[i].0, d) {}
      forall p ensures Stored(m', p) == LastRecord(records, p) {
        FindKeyAppend(m, d, v, p);
        if PayloadEq(d, p) && FindKey(m, p).Some? {
          var k := FindKey(m, p).value;
          PayloadEqSymmetric(d, p);
          PayloadEqTransitive(m[k].0, p, d);
        }
      }
  }
}
