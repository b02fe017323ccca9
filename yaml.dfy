/** The object graph PyYAML produces for a CI configuration, and the few
    Python operations the loaders apply to it: dictionary lookup, update and
    deletion in insertion order, truthiness, `in`, `.index` and iteration. */
module Yaml {
  import opened Wrappers
  import Text

  /** A loaded YAML node. Mappings keep their keys in insertion order, as
      Python dictionaries do, so a mapping is a sequence of key/value pairs. */
  datatype Value =
    | Null
    | Bool(b: bool)
    | Int(i: int)
    | Str(s: string)
    | List(items: seq<Value>)
    | Map(entries: seq<(string, Value)>)

  type Dict = seq<(string, Value)>

  /** The exceptions Python raises when a value has the wrong shape. */
  datatype PyError = TypeError | KeyError(key: string) | AttributeError | ValueError | IndexError

  // ---------------------------------------------------------------------
  // Dictionaries

  function Keys(d: Dict): (ks: seq<string>)
    ensures |ks| == |d|
    ensures forall i :: 0 <= i < |d| ==> ks[i] == d[i].0
  {
    if d == [] then [] else [d[0].0] + Keys(d[1..])
  }

  /** The names a list holds, as a set. */
  function Elems(xs: seq<string>): (s: set<string>)
    ensures forall x :: x in s <==> x in xs
  {
    set x | x in xs
  }

  predicate Distinct<T(==)>(xs: seq<T>) {
    forall i, j :: 0 <= i < j < |xs| ==> xs[i] != xs[j]
  }

  /** A Python dictionary never holds a key twice. */
  predicate WellFormed(d: Dict) {
    Distinct(Keys(d))
  }

  /** `d.get(k)`: the value stored under the first occurrence of k. */
  function Get(d: Dict, k: string): (r: Option<Value>)
    ensures r.Some? <==> k in Keys(d)
  {
    if d == [] then None
    else if d[0].0 == k then Some(d[0].1)
    else Get(d[1..], k)
  }

  /** `d.get(k, default)`. */
  function GetOr(d: Dict, k: string, default: Value): (v: Value)
    ensures k in Keys(d) ==> Some(v) == Get(d, k)
    ensures k !in Keys(d) ==> v == default
  {
    Get(d, k).GetOr(default)
  }

  /** `d[k] = v`: an existing key keeps its place, a new key goes last. */
  function Set(d: Dict, k: string, v: Value): (r: Dict)
    ensures Get(r, k) == Some(v)
    ensures Keys(r) == if k in Keys(d) then Keys(d) else Keys(d) + [k]
  {
    if d == [] then [(k, v)]
    else if d[0].0 == k then
      Cons((k, v), d[1..], k);
      [(k, v)] + d[1..]
    else
      var r := Set(d[1..], k, v);
      Cons(d[0], r, k);
      [d[0]] + r
  }

  /** An entry put in front: its key comes first, and it answers for that
      key. */
  lemma Cons(p: (string, Value), d: Dict, k: string)
    ensures Keys([p] + d) == [p.0] + Keys(d)
    ensures Get([p] + d, k) == if p.0 == k then Some(p.1) else Get(d, k)
  {
    assert ([p] + d)[0] == p && ([p] + d)[1..] == d;
  }

  /** Setting k leaves every other key's value alone. */
  lemma {:induction false} SetOther(d: Dict, k: string, v: Value, j: string)
    requires j != k
    ensures Get(Set(d, k, v), j) == Get(d, j)
  {
    if d != [] && d[0].0 != k {
      SetOther(d[1..], k, v, j);
    }
  }

  lemma SetOthers(d: Dict, k: string, v: Value)
    ensures forall j :: j != k ==> Get(Set(d, k, v), j) == Get(d, j)
  {
    forall j | j != k {
      SetOther(d, k, v, j);
    }
  }

  /** `del d[k]` when k is present: every other key keeps its value and its
      relative order. */
  function Delete(d: Dict, k: string): (r: Dict)
    ensures Get(r, k) == None
    ensures forall j :: j != k ==> Get(r, j) == Get(d, j)
    ensures forall j :: j in Keys(r) <==> j in Keys(d) && j != k
  {
    if d == [] then []
    else if d[0].0 == k then Delete(d[1..], k)
    else [d[0]] + Delete(d[1..], k)
  }

  lemma {:induction false} DeleteKeys(d: Dict, k: string)
    ensures Keys(Delete(d, k)) == Filter(Keys(d), k)
  {
    if d != [] {
      DeleteKeys(d[1..], k);
    }
  }

  /** The keys of a sequence with every occurrence of k removed. */
  function Filter(ks: seq<string>, k: string): (r: seq<string>)
    ensures forall j :: j in r <==> j in ks && j != k
    ensures |r| <= |ks|
  {
    if ks == [] then []
    else (if ks[0] == k then [] else [ks[0]]) + Filter(ks[1..], k)
  }

  /** Setting and deleting keep a dictionary free of repeated keys. */
  lemma SetWellFormed(d: Dict, k: string, v: Value)
    requires WellFormed(d)
    ensures WellFormed(Set(d, k, v))
  {
    var ks := Keys(d);
    if k !in ks {
      forall i, j | 0 <= i < j < |ks + [k]|
        ensures (ks + [k])[i] != (ks + [k])[j]
      {
        if j == |ks| {
          assert ks[i] in ks;
        }
      }
    }
  }

  lemma {:induction false} DeleteWellFormed(d: Dict, k: string)
    requires WellFormed(d)
    ensures WellFormed(Delete(d, k))
  {
    if d != [] {
      assert WellFormed(d[1..]) by {
        assert Keys(d[1..]) == Keys(d)[1..];
      }
      DeleteWellFormed(d[1..], k);
      if d[0].0 != k {
        var r := Delete(d[1..], k);
        assert d[0].0 !in Keys(d[1..]);
        assert d[0].0 !in Keys(r);
        assert Keys([d[0]] + r) == [d[0].0] + Keys(r);
      }
    }
  }

  // ---------------------------------------------------------------------
  // Python semantics on loaded values

  /** Python truthiness: None, False, 0 and empty containers are false. */
  predicate Truthy(v: Value) {
    match v
    case Null => false
    case Bool(b) => b
    case Int(i) => i != 0
    case Str(s) => s != []
    case List(items) => items != []
    case Map(entries) => entries != []
  }

  /** `x in container`: key membership for a mapping, element membership for
      a list and substring search for a string. Membership is structural
      equality of values, so Python's `1 == True` (and `1 in [True]`) is
      not reproduced. */
  function In(x: Value, container: Value): (r: Result<bool, PyError>)
    ensures container.List? ==> r == Ok(x in container.items)
    ensures container.Map? && x.Str? ==> r == Ok(x.s in Keys(container.entries))
    ensures r.Err? <==> !(container.List? || container.Map? || (container.Str? && x.Str?))
                        || (container.Map? && (x.List? || x.Map?))
  {
    match container
    case List(items) => Ok(x in items)
    case Map(entries) =>
      if x.List? || x.Map? then Err(TypeError)  // an unhashable key
      else Ok(x.Str? && x.s in Keys(entries))
    case Str(s) => if x.Str? then Ok(Text.Contains(s, x.s)) else Err(TypeError)
    case _ => Err(TypeError)
  }

  /** The position of the first occurrence of x in xs. */
  function IndexIn<T(==)>(xs: seq<T>, x: T): (i: nat)
    requires x in xs
    ensures i < |xs| && xs[i] == x && x !in xs[..i]
  {
    if xs[0] == x then 0 else 1 + IndexIn(xs[1..], x)
  }

  /** The position of the first occurrence of sub in s. */
  function SubIndex(s: string, sub: string): (i: nat)
    requires Text.Contains(s, sub)
    ensures i + |sub| <= |s| && s[i..i + |sub|] == sub
    decreases |s|
  {
    if Text.StartsWith(s, sub) then 0 else 1 + SubIndex(s[1..], sub)
  }

  /** `container.index(x)`: the first position of an element in a list or of
      a substring in a string (ValueError when there is none); mappings and
      scalars have no such method. */
  function Index(container: Value, x: Value): (r: Result<nat, PyError>)
    ensures container.List? ==> (r.Ok? <==> x in container.items)
    ensures container.List? && r.Ok? ==>
              r.value < |container.items| && container.items[r.value] == x
              && x !in container.items[..r.value]
    ensures r.Ok? ==> container.List? || (container.Str? && x.Str?)
    ensures In(x, container) == Ok(true) && container.Str? ==> r.Ok?
  {
    match container
    case List(items) => if x in items then Ok(IndexIn(items, x)) else Err(ValueError)
    case Str(s) =>
      if !x.Str? then Err(TypeError)
      else if Text.Contains(s, x.s) then Ok(SubIndex(s, x.s))
      else Err(ValueError)
    case _ => Err(AttributeError)
  }

  /** The values `for x in v` walks: list items, mapping keys or the
      characters of a string. */
  function Iterate(v: Value): (r: Result<seq<Value>, PyError>)
    ensures v.List? ==> r == Ok(v.items)
    ensures v.Map? ==> r.Ok? && |r.value| == |v.entries|
                       && forall i :: 0 <= i < |v.entries| ==> r.value[i] == Str(v.entries[i].0)
    ensures r.Err? <==> !(v.List? || v.Map? || v.Str?)
  {
    match v
    case List(items) => Ok(items)
    case Map(entries) => Ok(KeyValues(entries))
    case Str(s) => Ok(CharValues(s))
    case _ => Err(TypeError)
  }

  /** The keys of a mapping, each as a string value. */
  function KeyValues(d: Dict): (r: seq<Value>)
    ensures |r| == |d| && forall i :: 0 <= i < |d| ==> r[i] == Str(d[i].0)
  {
    if d == [] then [] else [Str(d[0].0)] + KeyValues(d[1..])
  }

  /** The characters of a string, each as a one-character string value. */
  function CharValues(s: string): (r: seq<Value>)
    ensures |r| == |s| && forall i :: 0 <= i < |s| ==> r[i] == Str([s[i]])
  {
    if s == [] then [] else [Str([s[0]])] + CharValues(s[1..])
  }

  /** `v[key]` for a string key. */
  function Subscript(v: Value, key: string): (r: Result<Value, PyError>)
    ensures r.Ok? <==> v.Map? && key in Keys(v.entries)
    ensures r.Ok? ==> Some(r.value) == Get(v.entries, key)
  {
    if v.Map? then
      if key in Keys(v.entries) then Ok(Get(v.entries, key).value) else Err(KeyError(key))
    else Err(TypeError)
  }
}
