/** `ComposeToQuadletConverter`: the converter object, whose variable and
    volume tables the stages of a conversion fill in place and the rendering
    stages read. */
module ComposeToQuadlet {
  import opened Outcomes
  import opened Text
  import opened ComposeValue
  import opened Tables
  import opened Placeholders
  import opened Discovery
  import opened Volumes
  import opened Dependencies
  import opened Container
  import opened Document

  /** The project name: a non-empty name given by the caller, otherwise the
      document's `name`, otherwise the name of the directory holding the
      document. */
  function ProjectName(doc: seq<(string, Value)>, nameOverride: string, directoryName: string): (r: Value)
    ensures nameOverride != [] ==> r == Str(nameOverride)
    ensures nameOverride == [] && Get(doc, "name").Some? ==> r == Get(doc, "name").value
    ensures nameOverride == [] && Get(doc, "name").None? ==> r == Str(directoryName)
  {
    if nameOverride != [] then Str(nameOverride) else GetOr(doc, "name", Str(directoryName))
  }

  /** The top-level `services` section, a mapping when absent. */
  function Services(doc: seq<(string, Value)>): Value {
    GetOr(doc, "services", Dict([]))
  }

  /** The top-level `volumes` section, a mapping when absent. */
  function Declarations(doc: seq<(string, Value)>): Value {
    GetOr(doc, "volumes", Dict([]))
  }

  class Converter {
    /** `self.variables`: the Nix `let` bindings, by variable name. */
    var variables: Table
    /** `self.volumes`: the host path of each declared volume. */
    var volumes: Table
    /** How Python prints a list or a mapping. */
    const show: Value -> string

    ghost predicate Valid()
      reads this
    {
      Tables.Valid(variables) && Tables.Valid(volumes)
    }

    constructor(show: Value -> string)
      ensures Valid() && variables == EMPTY && volumes == EMPTY && this.show == show
    {
      variables := EMPTY;
      volumes := EMPTY;
      this.show := show;
    }

    /** `_process_volumes`: every declaration, in order, stores its resolved
        path under its name. Declarations that are not a mapping raise. */
    method ProcessVolumes(decls: Value) returns (r: Outcome)
      requires Valid()
      modifies this
      ensures Valid() && variables == old(variables)
      ensures decls.Dict? ==> r == Pass && volumes == ResolveAll(old(volumes), decls.entries)
      ensures !decls.Dict? ==> r == Fail(MissingAttribute) && volumes == old(volumes)
    {
      if !decls.Dict? {
        return Fail(MissingAttribute);
      }
      var entries := decls.entries;
      var i := 0;
      while i < |entries|
        invariant 0 <= i <= |entries|
        invariant Valid() && variables == old(variables)
        invariant volumes == ResolveAll(old(volumes), entries[..i])
      {
        var (name, config) := entries[i];
        ResolveAllNext(old(volumes), entries, i);
        if IsExternal(config) {
          volumes := Put(volumes, name, name);
        } else {
          volumes := Put(volumes, name, STACK_ROOT + name);
        }
        i := i + 1;
      }
      assert entries[..i] == entries;
      return Pass;
    }

    /** The names in the string mounts of a service. */
    method MountNames(mounts: seq<Value>) returns (found: set<string>)
      ensures found == MountRefs(mounts)
    {
      found := {};
      var i := 0;
      while i < |mounts|
        invariant 0 <= i <= |mounts|
        invariant found == MountRefs(mounts[..i])
      {
        if mounts[i].Str? {
          found := found + FindEnvVars(mounts[i].s);
        }
        MountRefsStep(mounts, i);
        i := i + 1;
      }
      assert mounts[..i] == mounts;
    }

    /** The names in the string values of an environment mapping. */
    method EnvironmentNames(entries: seq<(string, Value)>) returns (found: set<string>)
      ensures found == EnvironmentRefs(entries)
    {
      found := {};
      var i := 0;
      while i < |entries|
        invariant 0 <= i <= |entries|
        invariant found == EnvironmentRefs(entries[..i])
      {
        if entries[i].1.Str? {
          found := found + FindEnvVars(entries[i].1.s);
        }
        EnvironmentRefsStep(entries, i);
        i := i + 1;
      }
      assert entries[..i] == entries;
    }

    /** One turn of the service loop of `_extract_variables`: the names in
        the service's image, its string mounts and the string values of a
        mapping-form environment. */
    method CollectServiceNames(config: Value) returns (r: Result<set<string>>)
      ensures r == ServiceRefs(config)
    {
      if !config.Dict? {
        return Err(MissingAttribute);
      }
      var image := GetOr(config.entries, "image", Str(""));
      if !image.Str? {
        return Err(BadType);
      }
      var mounts := Iterate(GetOr(config.entries, "volumes", List([])));
      if mounts.Err? {
        return Err(mounts.error);
      }
      var fromMounts := MountNames(mounts.value);
      var environment := GetOr(config.entries, "environment", Dict([]));
      var fromEnvironment: set<string> := {};
      if environment.Dict? {
        fromEnvironment := EnvironmentNames(environment.entries);
      }
      return Ok(FindEnvVars(image.s) + fromMounts + fromEnvironment);
    }

    /** The service loop of `_extract_variables`: the names of all services,
        or the exception of the first service that raises. */
    method CollectNames(services: seq<(string, Value)>) returns (r: Result<set<string>>)
      ensures r == Discover(services)
    {
      var found: set<string> := {};
      var i := 0;
      while i < |services|
        invariant 0 <= i <= |services|
        invariant Discover(services[..i]) == Ok(found)
      {
        var names := CollectServiceNames(services[i].1);
        assert services[..i + 1][..i] == services[..i];
        if names.Err? {
          DiscoverPrefixFails(services, i + 1);
          return Err(names.error);
        }
        found := found + names.value;
        i := i + 1;
      }
      assert services[..i] == services;
      return Ok(found);
    }

    /** The definition loop of `_extract_variables`: each found name not yet
        in the table is added with its suggested value, in no particular
        order. Names already in the table keep their value and their place. */
    method AddSuggestions(found: set<string>)
      requires Valid()
      modifies this
      ensures Valid() && volumes == old(volumes)
      ensures variables.at == Extend(old(variables.at), found)
      ensures old(variables.order) <= variables.order
    {
      var rest := found;
      while rest != {}
        invariant rest <= found
        invariant Valid() && volumes == old(volumes)
        invariant variables.at == Extend(old(variables.at), found - rest)
        invariant old(variables.order) <= variables.order
        decreases |rest|
      {
        var name :| name in rest;
        ExtendStep(old(variables.at), found - rest, name);
        assert found - rest + {name} == found - (rest - {name});
        DefineVariable(name);
        rest := rest - {name};
      }
      assert found - rest == found;
    }

    /** A found name not yet in the table is added with its suggested value;
        a name already there keeps its value. */
    method DefineVariable(name: string)
      requires Valid()
      modifies this
      ensures Valid() && volumes == old(volumes)
      ensures variables.at == if name in old(variables.at) then old(variables.at) else old(variables.at)[name := Suggest(name)]
      ensures old(variables.order) <= variables.order
    {
      if name !in variables.at {
        variables := Put(variables, name, Suggest(name));
      }
    }

    /** `_extract_variables`: collects the names of all services, then gives
        each name not yet in the table its suggested value. Services that are
        not a mapping, and a service that raises, leave the table as it
        was. */
    method ExtractVariables(services: Value) returns (r: Outcome)
      requires Valid()
      modifies this
      ensures Valid() && volumes == old(volumes)
      ensures !services.Dict? ==> r == Fail(MissingAttribute) && variables == old(variables)
      ensures services.Dict? && Discover(services.entries).Err? ==>
        r == Fail(Discover(services.entries).error) && variables == old(variables)
      ensures services.Dict? && Discover(services.entries).Ok? ==>
        && r == Pass
        && variables.at == Extend(old(variables.at), Discover(services.entries).value)
        && old(variables.order) <= variables.order
    {
      if !services.Dict? {
        return Fail(MissingAttribute);
      }
      var found := CollectNames(services.entries);
      if found.Err? {
        return Fail(found.error);
      }
      AddSuggestions(found.value);
      return Pass;
    }

    /** `_extract_dependencies`: the dependency list of every service, by
        name. A service that is not a mapping raises. */
    method ExtractDependencies(services: Value) returns (r: Result<map<string, seq<Value>>>)
      ensures r == if services.Dict? then DependencyTable(services.entries) else Err(MissingAttribute)
    {
      if !services.Dict? {
        return Err(MissingAttribute);
      }
      var entries := services.entries;
      var table: map<string, seq<Value>> := map[];
      var i := 0;
      while i < |entries|
        invariant 0 <= i <= |entries|
        invariant DependencyTable(entries[..i]) == Ok(table)
      {
        var (name, config) := entries[i];
        var deps := DependencyList(config);
        assert entries[..i + 1][..i] == entries[..i];
        if deps.Err? {
          DependencyTablePrefixFails(entries, i + 1);
          return Err(deps.error);
        }
        table := table[name := deps.value];
        i := i + 1;
      }
      assert entries[..i] == entries;
      return Ok(table);
    }

    /** The ports of `_generate_container_config`: truthy ports, which must be
        iterable, become a `publishPorts` list with one item per port, in
        order; a string mapping with a ':' is bound to the loopback address
        unless it names the loopback or the any-address already. */
    method RenderPorts(ports: Value) returns (r: Result<seq<string>>)
      ensures r == PortSection(ports, show)
    {
      if !Truthy(ports) {
        return Ok([]);
      }
      var items := Iterate(ports);
      if items.Err? {
        return Err(items.error);
      }
      var lines: seq<string> := [];
      var i := 0;
      while i < |items.value|
        invariant 0 <= i <= |items.value|
        invariant lines == PortLines(items.value[..i], show)
      {
        var port := items.value[i];
        if port.Str? && ':' in port.s {
          var bound := port.s;
          if !StartsWith(bound, LOOPBACK) && !StartsWith(bound, ANY_ADDRESS) {
            bound := LOOPBACK + bound;
          }
          lines := lines + [QuotedItem(bound)];
        } else {
          lines := lines + [QuotedItem(PyStr(port, show))];
        }
        i := i + 1;
      }
      assert items.value[..i] == items.value;
      return Ok([PORTS_OPEN] + lines + [LIST_CLOSE]);
    }

    /** The mounts of `_generate_container_config`: truthy mounts, which must
        be iterable, become a `volumes` list with one converted item per
        mount, in order, or the exception of the first mount that raises. */
    method RenderVolumes(mounts: Value) returns (r: Result<seq<string>>)
      requires Valid()
      ensures r == VolumeSection(variables.at.Keys, volumes, mounts, show)
    {
      if !Truthy(mounts) {
        return Ok([]);
      }
      var items := Iterate(mounts);
      if items.Err? {
        return Err(items.error);
      }
      var known := variables.at.Keys;
      var lines: seq<string> := [];
      var i := 0;
      while i < |items.value|
        invariant 0 <= i <= |items.value|
        invariant MountLines(known, volumes, items.value[..i], show) == Ok(lines)
      {
        var converted := ConvertVolume(known, volumes, items.value[i], show);
        MountLinesStep(known, volumes, items.value, i, show);
        if converted.Err? {
          MountLinesPrefixFails(known, volumes, items.value, i + 1, show);
          return Err(converted.error);
        }
        lines := lines + [QuotedItem(converted.value)];
        i := i + 1;
      }
      assert items.value[..i] == items.value;
      return Ok([VOLUMES_OPEN] + lines + [LIST_CLOSE]);
    }

    /** The environment of `_generate_container_config`: a truthy mapping
        becomes an `environments` set with one line per entry, in order, a
        string value with its placeholders rewritten. */
    method RenderEnvironment(env: Value) returns (lines: seq<string>)
      requires Valid()
      ensures lines == EnvironmentSection(variables.at.Keys, env, show)
    {
      if !Truthy(env) || !env.Dict? {
        return [];
      }
      var entries := env.entries;
      var known := variables.at.Keys;
      var items: seq<string> := [];
      var i := 0;
      while i < |entries|
        invariant 0 <= i <= |entries|
        invariant items == EnvLines(known, entries[..i], show)
      {
        var (key, value) := entries[i];
        EnvLinesNext(known, entries, i, show);
        if value.Str? {
          items := items + [EnvLine(key, ReplaceEnvVars(known, value.s))];
        } else {
          items := items + [EnvLine(key, PyStr(value, show))];
        }
        i := i + 1;
      }
      assert entries[..i] == entries;
      return [ENV_OPEN] + items + [ENV_CLOSE];
    }

    /** The `containerConfig` settings of a service, in the order
        `_generate_container_config` emits them, or the exception of the
        first section that raises. */
    method RenderSettings(config: seq<(string, Value)>, project: string) returns (r: Result<seq<string>>)
      requires Valid()
      ensures r == ContainerSettings(variables.at.Keys, volumes, config, project, show)
    {
      var image := GetOr(config, "image", Str(""));
      var lines: seq<string> := [];
      if Truthy(image) {
        if !image.Str? {
          return Err(BadType);
        }
        lines := [ImageLine(ReplaceEnvVars(variables.at.Keys, image.s))];
      }
      var ports := RenderPorts(GetOr(config, "ports", List([])));
      if ports.Err? {
        return Err(ports.error);
      }
      lines := lines + ports.value;
      var mounts := RenderVolumes(GetOr(config, "volumes", List([])));
      if mounts.Err? {
        return Err(mounts.error);
      }
      lines := lines + mounts.value;
      var envFile: seq<string> := [];
      if Truthy(GetOr(config, "env_file", Null)) {
        envFile := [ENV_FILE_LINE];
      }
      lines := lines + envFile;
      var environment := RenderEnvironment(GetOr(config, "environment", Dict([])));
      lines := lines + environment;
      var health := HealthSection(GetOr(config, "healthcheck", Dict([])), show);
      if health.Err? {
        return Err(health.error);
      }
      lines := lines + health.value + [NetworkLine(project)] + LABEL_LINES;
      return Ok(lines);
    }

    /** `_generate_container_config`: the block of one service. */
    method GenerateContainerConfig(name: string, config: Value, deps: seq<Value>, project: string)
      returns (r: Result<seq<string>>)
      requires Valid()
      ensures r == ContainerBlock(variables.at.Keys, volumes, name, config, deps, project, show)
    {
      if !config.Dict? {
        return Err(MissingAttribute);
      }
      var settings := RenderSettings(config.entries, project);
      if settings.Err? {
        return Err(settings.error);
      }
      var lines := [OpenLine(name), CONTAINER_OPEN] + settings.value + [SECTION_CLOSE];
      var restart := GetOr(config.entries, "restart", Null);
      var service: seq<string> := [];
      if Truthy(restart) {
        service := [SERVICE_OPEN, RestartLine(PyStr(restart, show)), SECTION_CLOSE];
      }
      lines := lines + service;
      var unit: seq<string> := [];
      if deps != [] {
        var items := DependencyLines(deps, show);
        unit := [UNIT_OPEN, AFTER_OPEN] + items + [LIST_CLOSE, REQUIRES_OPEN] + items + [LIST_CLOSE, SECTION_CLOSE];
      }
      lines := lines + unit;
      return Ok(lines + [BLOCK_CLOSE, ""]);
    }

    /** The `let` bindings of `_generate_nix_config`: one per variable, in
        table order, then the stack path and the inherited networks. */
    method LetBindings(project: string) returns (lines: seq<string>)
      requires Valid()
      ensures lines == LetLines(variables, project)
    {
      lines := [];
      var i := 0;
      while i < |variables.order|
        invariant 0 <= i <= |variables.order|
        invariant lines == VariableLines(variables)[..i]
      {
        var name := variables.order[i];
        lines := lines + [Binding(name, variables.at[name])];
        i := i + 1;
      }
      lines := lines + [StackPathLine(project), INHERIT_LINE];
    }

    /** The container loop of `_generate_nix_config`: the block of every
        service, in order, with its dependencies, or the exception of the
        first service that raises. */
    method GenerateContainers(services: seq<(string, Value)>, deps: map<string, seq<Value>>, project: string)
      returns (r: Result<seq<seq<string>>>)
      requires Valid()
      ensures r == ContainerBlocks(services, ServiceBlock(variables.at.Keys, volumes, deps, project, show))
    {
      var block := ServiceBlock(variables.at.Keys, volumes, deps, project, show);
      var blocks: seq<seq<string>> := [];
      var i := 0;
      while i < |services|
        invariant 0 <= i <= |services|
        invariant ContainerBlocks(services[..i], block) == Ok(blocks)
      {
        var (name, config) := services[i];
        var b := GenerateContainerConfig(name, config, DependenciesOf(deps, name), project);
        ContainerBlocksStep(services, i, block);
        if b.Err? {
          ContainerBlocksPrefixFails(services, i + 1, block);
          return Err(b.error);
        }
        blocks := blocks + [b.value];
        i := i + 1;
      }
      assert services[..i] == services;
      return Ok(blocks);
    }

    /** `_generate_nix_config`: the whole module. */
    method GenerateNixConfig(services: Value, project: Value, deps: map<string, seq<Value>>)
      returns (r: Result<seq<string>>)
      requires Valid()
      ensures r == NixConfig(variables, volumes, services, project, deps, show)
    {
      var p := PyStr(project, show);
      var bindings := LetBindings(p);
      if project.List? || project.Dict? {
        return Err(BadType);
      }
      if !services.Dict? {
        return Err(MissingAttribute);
      }
      var blocks := GenerateContainers(services.entries, deps, p);
      if blocks.Err? {
        return Err(blocks.error);
      }
      return Ok(HEADER + bindings + BODY_OPEN + [NetworkDefinition(p), CONTAINERS_OPEN]
                + ContainerLines(blocks.value) + FOOTER);
    }

    /** `convert` on an already parsed document: an empty document raises a
        ValueError and one that is not a mapping an AttributeError, both
        before anything changes. Otherwise the volume table is filled first,
        then the variable table, and then the dependencies are collected and
        the module is rendered from the new tables. Each stage that raises
        stops the conversion, leaving the tables of the later stages as they
        were. */
    method Convert(doc: Value, nameOverride: string, directoryName: string) returns (r: Result<seq<string>>)
      requires Valid()
      modifies this
      ensures Valid()
      ensures !Truthy(doc) ==> r == Err(EmptyDocument) && variables == old(variables) && volumes == old(volumes)
      ensures Truthy(doc) && !doc.Dict? ==>
        r == Err(MissingAttribute) && variables == old(variables) && volumes == old(volumes)
      ensures Truthy(doc) && doc.Dict? && !Declarations(doc.entries).Dict? ==>
        r == Err(MissingAttribute) && variables == old(variables) && volumes == old(volumes)
      ensures Truthy(doc) && doc.Dict? && Declarations(doc.entries).Dict? ==>
        volumes == ResolveAll(old(volumes), Declarations(doc.entries).entries)
      ensures Truthy(doc) && doc.Dict? && Declarations(doc.entries).Dict? && !Services(doc.entries).Dict? ==>
        r == Err(MissingAttribute) && variables == old(variables)
      ensures Truthy(doc) && doc.Dict? && Declarations(doc.entries).Dict? && Services(doc.entries).Dict?
              && Discover(Services(doc.entries).entries).Err? ==>
        r == Err(Discover(Services(doc.entries).entries).error) && variables == old(variables)
      ensures Truthy(doc) && doc.Dict? && Declarations(doc.entries).Dict? && Services(doc.entries).Dict?
              && Discover(Services(doc.entries).entries).Ok? ==>
        var services := Services(doc.entries);
        && variables.at == Extend(old(variables.at), Discover(services.entries).value)
        && old(variables.order) <= variables.order
        && DependencyTable(services.entries).Ok?
        && r == NixConfig(variables, volumes, services, ProjectName(doc.entries, nameOverride, directoryName),
                          DependencyTable(services.entries).value, show)
    {
      if !Truthy(doc) {
        return Err(EmptyDocument);
      }
      if !doc.Dict? {
        return Err(MissingAttribute);
      }
      var project := ProjectName(doc.entries, nameOverride, directoryName);
      var services := Services(doc.entries);
      var processed := ProcessVolumes(Declarations(doc.entries));
      if processed.Fail? {
        return Err(processed.error);
      }
      var extracted := ExtractVariables(services);
      if extracted.Fail? {
        return Err(extracted.error);
      }
      var deps := ExtractDependencies(services);
      DiscoveredServicesAreMappings(services.entries);
      DependencyTableFails(services.entries);
      r := GenerateNixConfig(services, project, deps.value);
    }
  }
}
