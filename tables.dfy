/** A Python dict from strings to strings, as the converter's `self.volumes`
    and `self.variables` are: the keys in insertion order, and the value of
    each key. */
module Tables {

  datatype Table = Table(order: seq<string>, at: map<string, string>)

  /** Every key is listed once, and exactly the listed keys have a value. */
  ghost predicate Valid(t: Table) {
    && (forall i, j :: 0 <= i < j < |t.order| ==> t.order[i] != t.order[j])
    && (forall k :: k in t.at <==> k in t.order)
  }

  /** `{}` */
  const EMPTY: Table := Table([], map[])

  /** `d[k] = v`: a new key goes last, a key already present keeps its place
      and only its value changes. */
  function Put(t: Table, k: string, v: string): (r: Table)
    requires Valid(t)
    ensures Valid(r)
    ensures r.at == t.at[k := v]
    ensures r.order == if k in t.at then t.order else t.order + [k]
  {
    if k in t.at then Table(t.order, t.at[k := v]) else Table(t.order + [k], t.at[k := v])
  }
}
