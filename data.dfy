/** The Python values that flow through the library — column values, literal arguments, field
    specifications — as one closed datatype, and the insertion-ordered `dict` that holds a record. */
module Data {
  import opened Errors
  import opened Text

  /** A Python value. `Real` carries the text Python's `str()` gives the float, because float
      formatting is not part of this model; `Other` is a value of any type the library does not
      handle (tuple, dict, bytes, ...), described by its `repr` and by its truthiness (an empty
      tuple, dict or set is falsy). */
  datatype Value =
    | Null
    | Bool(b: bool)
    | Int(i: int)
    | Real(text: string)
    | Text(s: string)
    | List(items: seq<Value>)
    | Other(repr: string, truthy: bool)

  /** Python truthiness, as `if value:` tests it. */
  predicate Truthy(v: Value)
  {
    match v
    case Null => false
    case Bool(b) => b
    case Int(i) => i != 0
    case Real(t) => t != "0.0" && t != "-0.0"
    case Text(s) => s != ""
    case List(items) => items != []
    case Other(_, t) => t
  }

  /** `str(v)` of a value that is not a list. */
  function ScalarStr(v: Value): string
  {
    match v
    case Null => "None"
    case Bool(b) => if b then "True" else "False"
    case Int(i) => IntToDecimal(i)
    case Real(t) => t
    case Text(s) => s
    case List(_) => "[...]"
    case Other(r, _) => r
  }

  /** `repr(v)`, with strings always wrapped in single quotes (Python switches to double quotes
      and escapes some characters; that is not modelled). */
  function Repr(v: Value): string
  {
    match v
    case Text(s) => "'" + s + "'"
    case List(items) =>
      "[" + Join(", ", seq(|items|, i requires 0 <= i < |items| => Repr(items[i]))) + "]"
    case _ => ScalarStr(v)
  }

  /** `str(v)`, as an f-string renders a value: a list shows the `repr` of its items. */
  function PyStr(v: Value): string
  {
    if v.List? then Repr(v) else ScalarStr(v)
  }

  /** `str()` of a name that may be None. */
  function NameStr(n: Option<string>): string
  {
    match n
    case None => "None"
    case Some(s) => s
  }

  /** Truthiness of a name that may be None. */
  predicate NameTruthy(n: Option<string>)
  {
    n.Some? && n.value != ""
  }

  // ---------------------------------------------------------------------------------------
  // An insertion-ordered Python dict with string keys.

  ghost predicate DistinctKeys(d: seq<(string, Value)>)
  {
    forall i, j :: 0 <= i < j < |d| ==> d[i].0 != d[j].0
  }

  type Dict = d: seq<(string, Value)> | DistinctKeys(d) witness []

  /** No name occurs twice. */
  predicate DistinctNames(names: seq<string>)
  {
    forall i, j :: 0 <= i < j < |names| ==> names[i] != names[j]
  }

  /** `set(names)`. */
  function NameSet(names: seq<string>): set<string>
  {
    set n | n in names
  }

  /** One more name in the prefix adds it to the set. */
  lemma NameSetSnoc(names: seq<string>, n: nat)
    requires 0 < n <= |names|
    ensures NameSet(names[..n]) == NameSet(names[..n - 1]) + {names[n - 1]}
  {
    assert names[..n] == names[..n - 1] + [names[n - 1]];
  }

  /** `list(d)`: the keys in insertion order. */
  function Keys(d: seq<(string, Value)>): (r: seq<string>)
    ensures |r| == |d|
    ensures forall i :: 0 <= i < |d| ==> r[i] == d[i].0
  {
    if |d| == 0 then [] else [d[0].0] + Keys(d[1..])
  }

  /** `set(d)`. */
  function KeySet(d: seq<(string, Value)>): (r: set<string>)
    ensures forall i :: 0 <= i < |d| ==> d[i].0 in r

  {
    var ks := Keys(d);
    set k | k in ks
  }

  /** `d.values()` in insertion order. */
  function Vals(d: seq<(string, Value)>): (r: seq<Value>)
    ensures |r| == |d|
    ensures forall i :: 0 <= i < |d| ==> r[i] == d[i].1
  {
    if |d| == 0 then [] else [d[0].1] + Vals(d[1..])
  }

  /** Where `k` sits in `d`. */
  function IndexOf(d: Dict, k: string): (i: nat)
    requires k in KeySet(d)
    ensures i < |d| && d[i].0 == k
  {
    if d[0].0 == k then 0
    else
      TailDistinct(d);
      assert Keys(d) == [d[0].0] + Keys(d[1..]);
      1 + IndexOf(d[1..], k)
  }

  /** The pairs after the first still have distinct keys. */
  lemma TailDistinct(d: Dict)
    requires |d| > 0
    ensures DistinctKeys(d[1..])
  {
    forall i, j | 0 <= i < j < |d[1..]| ensures d[1..][i].0 != d[1..][j].0 {
      assert d[1..][i] == d[i + 1] && d[1..][j] == d[j + 1];
    }
  }

  /** `d.get(k)`: the value stored under `k`, if any. */
  function Lookup(d: Dict, k: string): (r: Option<Value>)
    ensures r.Some? <==> k in KeySet(d)
    ensures forall i :: 0 <= i < |d| && d[i].0 == k ==> r == Some(d[i].1)
  {
    if k in KeySet(d) then Some(d[IndexOf(d, k)].1) else None
  }

  /** `d[k] = v`: replaces the value in place when `k` is present, appends the pair otherwise. */
  function Put(d: Dict, k: string, v: Value): Dict
  {
    if k in KeySet(d) then
      var r := d[IndexOf(d, k) := (k, v)];
      assert Keys(r) == Keys(d);
      r
    else
      var r := d + [(k, v)];
      assert Keys(r) == Keys(d) + [k];
      r
  }

  /** Storing under a key adds exactly that key; the key order changes only when it is new,
      and then the key goes last. */
  lemma PutKeys(d: Dict, k: string, v: Value)
    ensures KeySet(Put(d, k, v)) == KeySet(d) + {k}
    ensures k in KeySet(d) ==> Keys(Put(d, k, v)) == Keys(d)
    ensures k !in KeySet(d) ==> Keys(Put(d, k, v)) == Keys(d) + [k]
  {
    var r := Put(d, k, v);
    if k in KeySet(d) {
      assert Keys(r) == Keys(d);
    } else {
      assert Keys(r) == Keys(d) + [k];
    }
  }

  /** What `Put` stores is what `Lookup` finds, and no other key changes. */
  lemma LookupPut(d: Dict, k: string, v: Value, k': string)
    ensures Lookup(Put(d, k, v), k') == if k' == k then Some(v) else Lookup(d, k')
  {
    var r := Put(d, k, v);
    if k in KeySet(d) {
      var p := IndexOf(d, k);
      assert r[p] == (k, v);
      if k' != k && k' in KeySet(d) {
        var i := IndexOf(d, k');
        assert r[i] == d[i];
      }
    } else {
      assert r[|d|] == (k, v);
      if k' != k && k' in KeySet(d) {
        var i := IndexOf(d, k');
        assert r[i] == d[i];
      }
    }
  }
}
