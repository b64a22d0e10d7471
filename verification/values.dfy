/** Parsed property-list data as the reconciliation engine sees it: the Python
    objects that plistlib returns, the Python operations the engine applies to
    them (subscripting, `in`, iteration, `.get`, `.items()`, truthiness), and
    Python's `==` on them.

    A dictionary is kept as an association list in document order, because the
    order in which the engine walks a dictionary decides the order of its output.
    Property-list dictionaries have distinct keys; lookups take the first entry. */
module PyValue {

  datatype Option<+T> = None | Some(value: T)

  /** The exceptions the engine does not catch: any of them ends the run. */
  datatype Fault =
    | KeyError(key: Value)     // subscript of a dictionary with a missing key
    | IndexError               // subscript of a sequence past its end
    | TypeError                // wrong kind of object for the operation
    | AttributeError           // `.get`, `.items()` or `.values()` on a non-dictionary
    | Unhashable               // an identity tuple holding a list or dictionary used as a dict key

  datatype Result<+T> = Ok(value: T) | Err(fault: Fault) {
    predicate IsFailure() { Err? }
    function PropagateFailure<U>(): Result<U> requires Err? { Err(fault) }
    function Extract(): T requires Ok? { value }
  }

  /** The items `done` already produced, followed by those of a run that may fail. */
  function Prepend<T>(done: seq<T>, r: Result<seq<T>>): Result<seq<T>> {
    match r
    case Ok(xs) => Ok(done + xs)
    case Err(f) => Err(f)
  }

  newtype byte = x: int | 0 <= x < 256

  /** A parsed property-list object (real numbers are not modelled). */
  datatype Value =
    | Null
    | Bool(b: bool)
    | Int(i: int)
    | Str(s: string)
    | Data(bytes: seq<byte>)
    | Date(stamp: int)
    | Array(items: seq<Value>)
    | Dict(entries: seq<(string, Value)>)

  function Numeric(v: Value): int
    requires v.Bool? || v.Int?
  {
    if v.Bool? then (if v.b then 1 else 0) else v.i
  }

  /** Python's `==`: `True == 1`, lists element by element, dictionaries
      regardless of key order. */
  predicate PyEq(a: Value, b: Value)
    decreases a, 2
  {
    match a
    case Null => b.Null?
    case Bool(_) => (b.Bool? || b.Int?) && Numeric(a) == Numeric(b)
    case Int(_) => (b.Bool? || b.Int?) && Numeric(a) == Numeric(b)
    case Str(s) => b.Str? && b.s == s
    case Data(d) => b.Data? && b.bytes == d
    case Date(t) => b.Date? && b.stamp == t
    case Array(xs) =>
      b.Array? && |xs| == |b.items| &&
      forall i :: 0 <= i < |xs| ==> PyEq(xs[i], b.items[i])
    case Dict(es) => b.Dict? && Covers(a, b.entries) && CoveredBy(a, b.entries)
  }

  /** Every entry of dictionary `a` has an equal entry under the same key in `fs`. */
  predicate Covers(a: Value, fs: seq<(string, Value)>)
    requires a.Dict?
    decreases a, 1
  {
    forall i :: 0 <= i < |a.entries| ==> MatchIn(a, i, fs)
  }

  predicate MatchIn(a: Value, i: nat, fs: seq<(string, Value)>)
    requires a.Dict? && i < |a.entries|
    decreases a, 0
  {
    exists j :: 0 <= j < |fs| && fs[j].0 == a.entries[i].0 && PyEq(a.entries[i].1, fs[j].1)
  }

  /** Every entry of `fs` has an equal entry under the same key in dictionary `a`. */
  predicate CoveredBy(a: Value, fs: seq<(string, Value)>)
    requires a.Dict?
    decreases a, 1
  {
    forall j :: 0 <= j < |fs| ==> MatchOut(a, fs, j)
  }

  predicate MatchOut(a: Value, fs: seq<(string, Value)>, j: nat)
    requires a.Dict? && j < |fs|
    decreases a, 0
  {
    exists i :: 0 <= i < |a.entries| && a.entries[i].0 == fs[j].0 && PyEq(a.entries[i].1, fs[j].1)
  }

  lemma {:induction false} PyEqReflexive(a: Value)
    ensures PyEq(a, a)
    decreases a
  {
    match a
    case Array(xs) =>
      forall i | 0 <= i < |xs| ensures PyEq(xs[i], xs[i]) {
        PyEqReflexive(xs[i]);
      }
    case Dict(es) =>
      forall i | 0 <= i < |es| ensures MatchIn(a, i, es) && MatchOut(a, es, i) {
        PyEqReflexive(es[i].1);
        assert es[i].0 == es[i].0 && PyEq(es[i].1, es[i].1);
      }
    case _ =>
  }

  lemma {:induction false} PyEqSymmetric(a: Value, b: Value)
    requires PyEq(a, b)
    ensures PyEq(b, a)
    decreases a
  {
    match a
    case Array(xs) =>
      forall i | 0 <= i < |xs| ensures PyEq(b.items[i], xs[i]) {
        PyEqSymmetric(xs[i], b.items[i]);
      }
    case Dict(es) =>
      var fs := b.entries;
      forall j | 0 <= j < |fs| ensures MatchIn(b, j, es) {
        assert MatchOut(a, fs, j);
        var i :| 0 <= i < |es| && es[i].0 == fs[j].0 && PyEq(es[i].1, fs[j].1);
        PyEqSymmetric(es[i].1, fs[j].1);
      }
      forall i | 0 <= i < |es| ensures MatchOut(b, es, i) {
        assert MatchIn(a, i, fs);
        var j :| 0 <= j < |fs| && fs[j].0 == es[i].0 && PyEq(es[i].1, fs[j].1);
        PyEqSymmetric(es[i].1, fs[j].1);
      }
    case _ =>
  }

  lemma {:induction false} PyEqTransitive(a: Value, b: Value, c: Value)
    requires PyEq(a, b) && PyEq(b, c)
    ensures PyEq(a, c)
    decreases a
  {
    match a
    case Array(xs) =>
      forall i | 0 <= i < |xs| ensures PyEq(xs[i], c.items[i]) {
        PyEqTransitive(xs[i], b.items[i], c.items[i]);
      }
    case Dict(es) =>
      var fs, gs := b.entries, c.entries;
      forall i | 0 <= i < |es| ensures MatchIn(a, i, gs) {
        assert MatchIn(a, i, fs);
        var j :| 0 <= j < |fs| && fs[j].0 == es[i].0 && PyEq(es[i].1, fs[j].1);
        assert MatchIn(b, j, gs);
        var k :| 0 <= k < |gs| && gs[k].0 == fs[j].0 && PyEq(fs[j].1, gs[k].1);
        PyEqTransitive(es[i].1, fs[j].1, gs[k].1);
      }
      forall k | 0 <= k < |gs| ensures MatchOut(a, gs, k) {
        assert MatchOut(b, gs, k);
        var j :| 0 <= j < |fs| && fs[j].0 == gs[k].0 && PyEq(fs[j].1, gs[k].1);
        assert MatchOut(a, fs, j);
        var i :| 0 <= i < |es| && es[i].0 == fs[j].0 && PyEq(es[i].1, fs[j].1);
        PyEqTransitive(es[i].1, fs[j].1, gs[k].1);
      }
    case _ =>
  }

  /** Python `==` is insensitive to the order in which a dictionary's keys were
      written: the same entries listed in another order give an equal dictionary. */
  lemma {:induction false} DictOrderIrrelevant(es: seq<(string, Value)>, perm: seq<nat>)
    requires |perm| == |es|
    requires forall k :: 0 <= k < |perm| ==> perm[k] < |es|
    requires forall i :: 0 <= i < |es| ==> i in perm
    ensures PyEq(Dict(es), Dict(seq(|es|, k requires 0 <= k < |es| => es[perm[k]])))
  {
    var a := Dict(es);
    var fs := seq(|es|, k requires 0 <= k < |es| => es[perm[k]]);
    forall i | 0 <= i < |es| ensures MatchIn(a, i, fs) {
      assert i in perm;
      var k :| 0 <= k < |perm| && perm[k] == i;
      PyEqReflexive(es[i].1);
      assert fs[k] == es[i];
      assert fs[k].0 == es[i].0 && PyEq(es[i].1, fs[k].1);
    }
    forall j | 0 <= j < |fs| ensures MatchOut(a, fs, j) {
      PyEqReflexive(fs[j].1);
      assert es[perm[j]] == fs[j];
      assert es[perm[j]].0 == fs[j].0 && PyEq(es[perm[j]].1, fs[j].1);
    }
    assert Covers(a, fs) && CoveredBy(a, fs);
  }

  /** The value stored under `key` (first entry with that key). */
  function Lookup(es: seq<(string, Value)>, key: string): Option<Value> {
    if es == [] then None
    else if es[0].0 == key then Some(es[0].1)
    else Lookup(es[1..], key)
  }

  /** An entry whose key no earlier entry has is the one a lookup finds. */
  lemma {:induction false} LookupFindsFirst(es: seq<(string, Value)>, k: nat)
    requires k < |es| && forall j :: 0 <= j < k ==> es[j].0 != es[k].0
    ensures Lookup(es, es[k].0) == Some(es[k].1)
  {
    if k > 0 {
      LookupFindsFirst(es[1..], k - 1);
    }
  }

  predicate HasKey(v: Value, key: string) {
    v.Dict? && Lookup(v.entries, key).Some?
  }

  /** `v[key]` with a string key. */
  function GetItem(v: Value, key: string): (r: Result<Value>)
    ensures r.Ok? <==> HasKey(v, key)
    ensures r.Ok? ==> Lookup(v.entries, key) == Some(r.value)
  {
    match v
    case Dict(es) =>
      (match Lookup(es, key)
       case Some(x) => Ok(x)
       case None => Err(KeyError(Str(key))))
    case _ => Err(TypeError)
  }

  /** `v[n]` with an integer index. */
  function GetIndex(v: Value, n: nat): (r: Result<Value>)
    ensures v.Array? ==> (r.Ok? <==> n < |v.items|)
    ensures v.Array? && n < |v.items| ==> r == Ok(v.items[n])
    ensures v.Dict? || v.Null? || v.Bool? || v.Int? || v.Date? ==> r.Err?
  {
    match v
    case Array(xs) => if n < |xs| then Ok(xs[n]) else Err(IndexError)
    case Str(s) => if n < |s| then Ok(Str([s[n]])) else Err(IndexError)
    case Data(d) => if n < |d| then Ok(Int(d[n] as int)) else Err(IndexError)
    case Dict(_) => Err(KeyError(Int(n)))  // dictionary keys are strings
    case _ => Err(TypeError)
  }

  /** `v.get(key)`: the stored value, or None when the key is absent. */
  function GetOrNull(v: Value, key: string): (r: Result<Value>)
    ensures r.Ok? <==> v.Dict?
    ensures v.Dict? ==> r.value == (if HasKey(v, key) then GetItem(v, key).value else Null)
  {
    if v.Dict? then Ok(Field(v.entries, key)) else Err(AttributeError)
  }

  /** The value under `key`, None when absent. */
  function Field(es: seq<(string, Value)>, key: string): Value {
    match Lookup(es, key) case Some(x) => x case None => Null
  }

  predicate IsSubstring(needle: string, hay: string) {
    exists i :: 0 <= i <= |hay| && needle <= hay[i..]
  }

  /** `key in v` with a string key. */
  function Contains(v: Value, key: string): (r: Result<bool>)
    ensures v.Dict? ==> r == Ok(HasKey(v, key))
    ensures v.Array? ==> r == Ok(exists i :: 0 <= i < |v.items| && PyEq(v.items[i], Str(key)))
    ensures v.Str? ==> r == Ok(IsSubstring(key, v.s))
    ensures v.Null? || v.Bool? || v.Int? || v.Date? || v.Data? ==> r.Err?
  {
    match v
    case Dict(es) => Ok(Lookup(es, key).Some?)
    case Array(xs) => Ok(exists i :: 0 <= i < |xs| && PyEq(xs[i], Str(key)))
    case Str(s) => Ok(IsSubstring(key, s))
    case _ => Err(TypeError)
  }

  /** The objects a `for` loop over `v` visits. */
  function Iter(v: Value): (r: Result<seq<Value>>)
    ensures v.Array? ==> r == Ok(v.items)
    ensures v.Dict? ==> r.Ok? && |r.value| == |v.entries|
    ensures v.Dict? ==> forall i :: 0 <= i < |v.entries| ==> r.value[i] == Str(v.entries[i].0)
    ensures v.Str? ==> r.Ok? && |r.value| == |v.s| && forall i :: 0 <= i < |v.s| ==> r.value[i] == Str([v.s[i]])
    ensures v.Data? ==> r.Ok? && |r.value| == |v.bytes| && forall i :: 0 <= i < |v.bytes| ==> r.value[i] == Int(v.bytes[i] as int)
    ensures r.Err? <==> v.Null? || v.Bool? || v.Int? || v.Date?
  {
    match v
    case Array(xs) => Ok(xs)
    case Dict(es) => Ok(seq(|es|, i requires 0 <= i < |es| => Str(es[i].0)))
    case Str(s) => Ok(seq(|s|, i requires 0 <= i < |s| => Str([s[i]])))
    case Data(d) => Ok(seq(|d|, i requires 0 <= i < |d| => Int(d[i] as int)))
    case _ => Err(TypeError)
  }

  /** `v.items()`. */
  function Items(v: Value): (r: Result<seq<(string, Value)>>)
    ensures r.Ok? <==> v.Dict?
    ensures v.Dict? ==> r.value == v.entries
  {
    if v.Dict? then Ok(v.entries) else Err(AttributeError)
  }

  /** `v.values()`. */
  function Values(v: Value): (r: Result<seq<Value>>)
    ensures r.Ok? <==> v.Dict?
    ensures r.Ok? ==> |r.value| == |v.entries| && forall i :: 0 <= i < |r.value| ==> r.value[i] == v.entries[i].1
  {
    if v.Dict? then Ok(seq(|v.entries|, i requires 0 <= i < |v.entries| => v.entries[i].1))
    else Err(AttributeError)
  }

  /** Python truthiness (`if v:`). */
  predicate Truthy(v: Value) {
    match v
    case Null => false
    case Bool(b) => b
    case Int(i) => i != 0
    case Str(s) => s != []
    case Data(d) => d != []
    case Date(_) => true
    case Array(xs) => xs != []
    case Dict(es) => es != []
  }

  /** Objects Python can hash: not lists, not dictionaries. */
  predicate HashableValue(v: Value) {
    !v.Array? && !v.Dict?
  }
}
