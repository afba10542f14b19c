/** Variable discovery (`_extract_variables`, `_find_env_vars`,
    `_suggest_variable_value`): the placeholder names the services mention,
    and the value suggested for each new one. */
module Discovery {
  import opened Outcomes
  import opened Text
  import opened ComposeValue
  import opened Placeholders

  /** The fixed suggestions for well-known names. */
  const SUGGESTIONS: map<string, string> := map[
    "IMMICH_VERSION" := "\"v1.125.7\"",
    "UPLOAD_LOCATION" := "\"/main/immich\"",
    "DB_DATA_LOCATION" := "\"${STACK_PATH}/pgdata\"",
    "STACK_PATH" := "\"/etc/stacks/immich\"",
    "DB_PASSWORD" := "config.sops.secrets.dbPassword.path",
    "DB_USERNAME" := "\"postgres\"",
    "DB_DATABASE_NAME" := "\"immich\""
  ]

  /** The value suggested for a variable: the fixed one for a well-known name,
      otherwise the name lower-cased and quoted. */
  function Suggest(name: string): (r: string)
    ensures name in SUGGESTIONS ==> r == SUGGESTIONS[name]
    ensures name !in SUGGESTIONS ==> r == "\"" + Lower(name) + "\""
  {
    if name in SUGGESTIONS then SUGGESTIONS[name] else "\"" + Lower(name) + "\""
  }

  /** A name outside the fixed table is suggested as a quoted string literal
      with no upper-case ASCII letter, as long as the name. */
  lemma SuggestUnknownIsLowerLiteral(name: string)
    requires name !in SUGGESTIONS
    ensures var r := Suggest(name);
      && |r| == |name| + 2 && r[0] == '"' && r[|r| - 1] == '"'
      && forall i :: 1 <= i < |r| - 1 ==> !('A' <= r[i] <= 'Z')
  {
  }

  /** The names found in the string mounts of a service. */
  function MountRefs(mounts: seq<Value>): set<string> {
    set i, n | 0 <= i < |mounts| && mounts[i].Str? && n in FindEnvVars(mounts[i].s) :: n
  }

  /** The names found in the string values of an environment mapping. */
  function EnvironmentRefs(entries: seq<(string, Value)>): set<string> {
    set i, n | 0 <= i < |entries| && entries[i].1.Str? && n in FindEnvVars(entries[i].1.s) :: n
  }

  /** The names one service contributes (one turn of the loop of
      `_extract_variables`): from its image, which must be a string, its
      string mounts, and the string values of a mapping-form environment.
      A service that is not a mapping, a non-string image and mounts that
      cannot be iterated raise. */
  function ServiceRefs(config: Value): (r: Result<set<string>>)
    ensures r.Ok? <==> ServiceShaped(config)
    ensures !config.Dict? ==> r == Err(MissingAttribute)
    ensures config.Dict? && r.Err? ==> r.error == BadType
  {
    if !config.Dict? then Err(MissingAttribute)
    else
      var image := GetOr(config.entries, "image", Str(""));
      if !image.Str? then Err(BadType)
      else
        var mounts :- Iterate(GetOr(config.entries, "volumes", List([])));
        var environment := GetOr(config.entries, "environment", Dict([]));
        Ok(FindEnvVars(image.s) + MountRefs(mounts)
           + (if environment.Dict? then EnvironmentRefs(environment.entries) else {}))
  }

  /** The set the loop over all services collects, or the exception of the
      first service that raises. */
  function Discover(services: seq<(string, Value)>): (r: Result<set<string>>)
    ensures r.Ok? <==> forall i :: 0 <= i < |services| ==> ServiceRefs(services[i].1).Ok?
    decreases |services|
  {
    if services == [] then Ok({})
    else
      var init := services[..|services| - 1];
      var last := ServiceRefs(services[|services| - 1].1);
      assert forall i :: 0 <= i < |services| ==> (ServiceRefs(services[i].1).Ok? <==>
        if i < |init| then ServiceRefs(init[i].1).Ok? else last.Ok?);
      var before :- Discover(init);
      var found :- last;
      Ok(before + found)
  }

  /** Every discovered name is a non-empty run of characters other than '}'. */
  lemma {:induction false} DiscoveredNamesWellFormed(services: seq<(string, Value)>)
    requires Discover(services).Ok?
    ensures forall n :: n in Discover(services).value ==> n != [] && '}' !in n
    decreases |services|
  {
    if services != [] {
      DiscoveredNamesWellFormed(services[..|services| - 1]);
    }
  }

  /** Discovery raises only for a service that is not a mapping, an image that
      is not a string, or mounts that are neither a list, a mapping nor a
      string; services free of these are always scanned. */
  lemma {:induction false} DiscoverSucceeds(services: seq<(string, Value)>)
    requires forall i :: 0 <= i < |services| ==> ServiceShaped(services[i].1)
    ensures Discover(services).Ok?
    decreases |services|
  {
    if services != [] {
      DiscoverSucceeds(services[..|services| - 1]);
    }
  }

  /** A service the discovery loop scans without raising. */
  predicate ServiceShaped(config: Value) {
    && config.Dict?
    && GetOr(config.entries, "image", Str("")).Str?
    && Iterate(GetOr(config.entries, "volumes", List([]))).Ok?
  }

  /** The variable table after the suggestion loop of `extract_variables`:
      each found name not yet in the table gets its suggestion; names
      already there keep their value. */
  function Extend(vars: map<string, string>, found: set<string>): (r: map<string, string>)
    ensures r.Keys == vars.Keys + found
    ensures forall k :: k in vars ==> r[k] == vars[k]
    ensures forall k :: k in found && k !in vars ==> r[k] == Suggest(k)
  {
    map k | k in vars.Keys + found :: if k in vars then vars[k] else Suggest(k)
  }

  /** Handling one more found name: a name already in the table is left alone,
      a new one is added with its suggestion. */
  lemma ExtendStep(vars: map<string, string>, done: set<string>, n: string)
    requires n !in done
    ensures Extend(vars, done + {n})
         == if n in vars then Extend(vars, done) else Extend(vars, done)[n := Suggest(n)]
  {
    var a := Extend(vars, done + {n});
    var b := if n in vars then Extend(vars, done) else Extend(vars, done)[n := Suggest(n)];
    assert a.Keys == b.Keys;
  }

  /** One more mount adds the names of a string mount and nothing else. */
  lemma MountRefsStep(mounts: seq<Value>, i: nat)
    requires i < |mounts|
    ensures MountRefs(mounts[..i + 1])
         == MountRefs(mounts[..i]) + if mounts[i].Str? then FindEnvVars(mounts[i].s) else {}
  {
    var a := mounts[..i + 1];
    var b := mounts[..i];
    assert forall j :: 0 <= j < i ==> a[j] == b[j];
    assert a[i] == mounts[i];
  }

  /** One more environment entry adds the names of a string value and nothing
      else. */
  lemma EnvironmentRefsStep(entries: seq<(string, Value)>, i: nat)
    requires i < |entries|
    ensures EnvironmentRefs(entries[..i + 1])
         == EnvironmentRefs(entries[..i]) + if entries[i].1.Str? then FindEnvVars(entries[i].1.s) else {}
  {
    var a := entries[..i + 1];
    var b := entries[..i];
    assert forall j :: 0 <= j < i ==> a[j] == b[j];
    assert a[i] == entries[i];
  }

  /** The exception of the first services is the exception of all of them. */
  lemma {:induction false} DiscoverPrefixFails(services: seq<(string, Value)>, k: nat)
    requires k <= |services| && Discover(services[..k]).Err?
    ensures Discover(services) == Discover(services[..k])
    decreases |services|
  {
    if k < |services| {
      var init := services[..|services| - 1];
      assert init[..k] == services[..k];
      DiscoverPrefixFails(init, k);
    } else {
      assert services[..k] == services;
    }
  }

  /** Discovery succeeds only when every service is a mapping. */
  lemma {:induction false} DiscoveredServicesAreMappings(services: seq<(string, Value)>)
    requires Discover(services).Ok?
    ensures forall i :: 0 <= i < |services| ==> services[i].1.Dict?
    decreases |services|
  {
    if services != [] {
      var init := services[..|services| - 1];
      DiscoverLast(services);
      DiscoveredServicesAreMappings(init);
      forall i | 0 <= i < |services| ensures services[i].1.Dict? {
        if i < |services| - 1 {
          assert services[i] == init[i];
        } else {
          assert i == |services| - 1;
        }
      }
    }
  }

  lemma DiscoverLast(services: seq<(string, Value)>)
    requires services != [] && Discover(services).Ok?
    ensures Discover(services[..|services| - 1]).Ok? && services[|services| - 1].1.Dict?
  {
    assert ServiceRefs(services[|services| - 1].1).Ok?;
  }
}
