/** `_extract_dependencies`: the `depends_on` list of every service. */
module Dependencies {
  import opened Outcomes
  import opened ComposeValue

  /** The dependencies of one service: the keys of a mapping-form
      `depends_on` in order, a list-form one as it is, and nothing for any
      other form or when it is absent. A service that is not a mapping
      raises. */
  function DependencyList(config: Value): (r: Result<seq<Value>>)
    ensures r.Err? <==> !config.Dict?
  {
    if !config.Dict? then Err(MissingAttribute)
    else match GetOr(config.entries, "depends_on", List([]))
      case Dict(entries) => Ok(seq(|entries|, i requires 0 <= i < |entries| => Str(entries[i].0)))
      case List(items) => Ok(items)
      case _ => Ok([])
  }

  /** The table the loop over the first services builds, or the exception of
      the first service that raises. */
  function DependencyTable(services: seq<(string, Value)>): (r: Result<map<string, seq<Value>>>)
    ensures r.Ok? ==> forall k :: k in r.value <==> k in Keys(services)
    ensures r.Ok? ==> forall i :: 0 <= i < |services| ==> services[i].1.Dict?
    decreases |services|
  {
    if services == [] then Ok(map[])
    else
      var init := services[..|services| - 1];
      var last := services[|services| - 1];
      var before :- DependencyTable(init);
      var deps :- DependencyList(last.1);
      assert Keys(services) == Keys(init) + [last.0];
      assert forall i :: 0 <= i < |init| ==> services[i] == init[i];
      Ok(before[last.0 := deps])
  }

  /** The table fails exactly when some service is not a mapping. */
  lemma {:induction false} DependencyTableFails(services: seq<(string, Value)>)
    ensures DependencyTable(services).Err? <==> exists i :: 0 <= i < |services| && !services[i].1.Dict?
    decreases |services|
  {
    if services != [] {
      var init := services[..|services| - 1];
      DependencyTableFails(init);
      if exists i :: 0 <= i < |init| && !init[i].1.Dict? {
        var i :| 0 <= i < |init| && !init[i].1.Dict?;
        assert services[i] == init[i];
      }
      if exists i :: 0 <= i < |services| && !services[i].1.Dict? {
        var i :| 0 <= i < |services| && !services[i].1.Dict?;
        if i < |init| {
          assert services[i] == init[i];
        }
      }
    }
  }

  /** Every service is listed under its own name with its own dependencies. */
  lemma {:induction false} DependencyTableEntries(services: seq<(string, Value)>)
    requires DistinctKeys(services) && DependencyTable(services).Ok?
    ensures forall i :: 0 <= i < |services| ==>
      DependencyTable(services).value[services[i].0] == DependencyList(services[i].1).value
    decreases |services|
  {
    if services != [] {
      var init := services[..|services| - 1];
      var last := services[|services| - 1];
      DependencyTableEntries(init);
      var m := DependencyTable(services).value;
      forall i | 0 <= i < |services|
        ensures m[services[i].0] == DependencyList(services[i].1).value
      {
        if i == |services| - 1 {
          DependencyTableLast(services);
        } else {
          assert services[i] == init[i] && Keys(init)[i] == init[i].0;
        }
      }
    }
  }

  lemma DependencyTableLast(services: seq<(string, Value)>)
    requires services != [] && DependencyTable(services).Ok?
    ensures var last := services[|services| - 1];
      DependencyTable(services).value[last.0] == DependencyList(last.1).value
  {
  }

  /** The exception of the first services is the exception of all of them. */
  lemma {:induction false} DependencyTablePrefixFails(services: seq<(string, Value)>, k: nat)
    requires k <= |services| && DependencyTable(services[..k]).Err?
    ensures DependencyTable(services) == DependencyTable(services[..k])
    decreases |services|
  {
    if k < |services| {
      var init := services[..|services| - 1];
      assert init[..k] == services[..k];
      DependencyTablePrefixFails(init, k);
    } else {
      assert services[..k] == services;
    }
  }
}
