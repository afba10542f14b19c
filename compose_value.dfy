/** The parsed Compose document: the tree `yaml.safe_load` returns, and the
    Python operations the converter applies to it (`get`, truthiness,
    iteration, `str`). */
module ComposeValue {
  import opened Outcomes
  import opened Text

  /** A loaded YAML value. A mapping keeps its keys in document order; its keys
      are distinct, as in the Python dict the loader builds. */
  datatype Value =
    | Null
    | Bool(b: bool)
    | Int(i: int)
    | Str(s: string)
    | List(items: seq<Value>)
    | Dict(entries: seq<(string, Value)>)

  /** Python truthiness: `if v:` */
  predicate Truthy(v: Value) {
    match v
    case Null => false
    case Bool(b) => b
    case Int(i) => i != 0
    case Str(s) => s != []
    case List(items) => items != []
    case Dict(entries) => entries != []
  }

  /** `d.get(key)`: the value bound to key, if any. It is the value of the
      first entry with that key (the only one, in a mapping the loader built). */
  function Get(entries: seq<(string, Value)>, key: string): (r: Option<Value>)
    ensures r.Some? <==> exists i :: 0 <= i < |entries| && entries[i].0 == key
    ensures r.Some? ==> (key, r.value) in entries
    decreases |entries|
  {
    if entries == [] then None
    else if entries[0].0 == key then Some(entries[0].1)
    else
      var r := Get(entries[1..], key);
      assert forall i :: 1 <= i < |entries| ==> entries[i] == entries[1..][i - 1];
      r
  }

  /** The value found is that of the first entry with the key. */
  lemma {:induction false} GetFirstBinding(entries: seq<(string, Value)>, key: string)
    requires Get(entries, key).Some?
    ensures exists i :: 0 <= i < |entries| && entries[i] == (key, Get(entries, key).value)
                        && forall j :: 0 <= j < i ==> entries[j].0 != key
    decreases |entries|
  {
    if entries[0].0 != key {
      var rest := entries[1..];
      GetFirstBinding(rest, key);
      var i :| 0 <= i < |rest| && rest[i] == (key, Get(rest, key).value)
                && forall j :: 0 <= j < i ==> rest[j].0 != key;
      assert entries[i + 1] == rest[i];
      assert forall j :: 1 <= j < i + 1 ==> entries[j] == rest[j - 1];
    } else {
      assert entries[0] == (key, Get(entries, key).value);
    }
  }

  /** `d.get(key, absent)` */
  function GetOr(entries: seq<(string, Value)>, key: string, absent: Value): Value {
    match Get(entries, key)
    case Some(v) => v
    case None => absent
  }

  /** The keys of a mapping, in order: `list(d.keys())`. */
  function Keys(entries: seq<(string, Value)>): (r: seq<string>)
    ensures |r| == |entries| && forall i :: 0 <= i < |r| ==> r[i] == entries[i].0
  {
    seq(|entries|, i requires 0 <= i < |entries| => entries[i].0)
  }

  /** The keys of a mapping are pairwise distinct: no key repeats one before
      it. */
  ghost predicate DistinctKeys(entries: seq<(string, Value)>)
    decreases |entries|
  {
    entries == []
    || (DistinctKeys(entries[..|entries| - 1]) && entries[|entries| - 1].0 !in Keys(entries[..|entries| - 1]))
  }

  /** What `for x in v` visits: a list's items, a mapping's keys, a string's
      characters; any other value raises a TypeError. */
  function Iterate(v: Value): (r: Result<seq<Value>>)
    ensures r.Err? <==> !(v.List? || v.Dict? || v.Str?)
    ensures r.Ok? ==> (|r.value| == 0 <==> !Truthy(v))
  {
    match v
    case List(items) => Ok(items)
    case Dict(entries) => Ok(seq(|entries|, i requires 0 <= i < |entries| => Str(entries[i].0)))
    case Str(s) => Ok(seq(|s|, i requires 0 <= i < |s| => Str([s[i]])))
    case _ => Err(BadType)
  }

  /** `str(v)` as an f-string prints it. The text Python prints for a list or a
      mapping is its repr, which `show` stands for. */
  function PyStr(v: Value, show: Value -> string): string {
    match v
    case Null => "None"
    case Bool(b) => if b then "True" else "False"
    case Int(i) => Decimal(i)
    case Str(s) => s
    case _ => show(v)
  }
}
