/** `_generate_nix_config`: the whole quadlet-nix module, as the list of lines
    its text joins with newlines. */
module Document {
  import opened Outcomes
  import opened ComposeValue
  import opened Tables
  import opened Container

  const HEADER: seq<string> := ["  virtualisation.quadlet =", "    let"]
  const INHERIT_LINE: string := "      inherit (config.virtualisation.quadlet) networks;"
  const BODY_OPEN: seq<string> := ["    in", "    {"]
  const CONTAINERS_OPEN: string := "      containers = {"
  const FOOTER: seq<string> := ["      };", "    };"]

  /** A `let` binding of a variable to its Nix value. */
  function Binding(name: string, value: string): string { "      " + name + " = " + value + ";" }

  /** The stack directory of the project. */
  function StackPathLine(project: string): string { "      STACK_PATH = \"/etc/stacks/" + project + "\";" }

  /** The project's bridge network. */
  function NetworkDefinition(project: string): string {
    "      networks." + project + ".networkConfig.driver = \"bridge\";"
  }

  /** The variable bindings, one per variable in table order. */
  function VariableLines(vars: Table): (r: seq<string>)
    requires Tables.Valid(vars)
  {
    seq(|vars.order|, i requires 0 <= i < |vars.order| => Binding(vars.order[i], vars.at[vars.order[i]]))
  }

  /** The `let` part: the variables, then the stack path and the inherited
      networks. */
  function LetLines(vars: Table, project: string): seq<string>
    requires Tables.Valid(vars)
  {
    VariableLines(vars) + [StackPathLine(project), INHERIT_LINE]
  }

  /** The dependencies looked up for a service, none when it has no entry. */
  function DependenciesOf(deps: map<string, seq<Value>>, name: string): seq<Value> {
    if name in deps then deps[name] else []
  }

  /** The blocks of the services in order, or the exception of the first
      service whose block raises. */
  function ContainerBlocks(services: seq<(string, Value)>, block: ((string, Value)) --> Result<seq<string>>): (r: Result<seq<seq<string>>>)
    requires forall i :: 0 <= i < |services| ==> block.requires(services[i])
    ensures r.Ok? <==> forall i :: 0 <= i < |services| ==> block(services[i]).Ok?
    ensures r.Ok? ==>
      && |r.value| == |services|
      && forall i :: 0 <= i < |services| ==> block(services[i]) == Ok(r.value[i])
    decreases |services|
  {
    if services == [] then Ok([])
    else
      var init := services[..|services| - 1];
      assert forall i :: 0 <= i < |init| ==> services[i] == init[i];
      var before :- ContainerBlocks(init, block);
      var last :- block(services[|services| - 1]);
      Ok(before + [last])
  }

  /** One more service appends its block, or raises its exception. */
  lemma ContainerBlocksStep(services: seq<(string, Value)>, i: nat, block: ((string, Value)) --> Result<seq<string>>)
    requires i < |services| && forall j :: 0 <= j < |services| ==> block.requires(services[j])
    requires ContainerBlocks(services[..i], block).Ok?
    ensures var r := ContainerBlocks(services[..i + 1], block);
      match block(services[i])
      case Ok(b) => r == Ok(ContainerBlocks(services[..i], block).value + [b])
      case Err(e) => r == Err(e)
  {
    assert services[..i + 1][..i] == services[..i];
  }

  /** The exception of the first services is the exception of all of them. */
  lemma {:induction false} ContainerBlocksPrefixFails(services: seq<(string, Value)>, k: nat, block: ((string, Value)) --> Result<seq<string>>)
    requires k <= |services| && forall j :: 0 <= j < |services| ==> block.requires(services[j])
    requires ContainerBlocks(services[..k], block).Err?
    ensures ContainerBlocks(services, block) == ContainerBlocks(services[..k], block)
    decreases |services|
  {
    if k < |services| {
      var init := services[..|services| - 1];
      assert init[..k] == services[..k];
      ContainerBlocksPrefixFails(init, k, block);
    } else {
      assert services[..k] == services;
    }
  }

  /** The blocks one after another. */
  function Flatten(blocks: seq<seq<string>>): seq<string>
    decreases |blocks|
  {
    if blocks == [] then [] else Flatten(blocks[..|blocks| - 1]) + blocks[|blocks| - 1]
  }

  /** Every line of every block is in the flattened blocks. */
  lemma {:induction false} FlattenHas(blocks: seq<seq<string>>, i: nat, line: string)
    requires i < |blocks| && line in blocks[i]
    ensures line in Flatten(blocks)
    decreases |blocks|
  {
    if i < |blocks| - 1 {
      FlattenHas(blocks[..|blocks| - 1], i, line);
    }
  }

  /** The containers part: the blocks, or a single empty line when there are
      none. */
  function ContainerLines(blocks: seq<seq<string>>): seq<string> {
    if blocks == [] then [""] else Flatten(blocks)
  }

  /** The block of a service, given its name and configuration. */
  function ServiceBlock(known: set<string>, vols: Table, deps: map<string, seq<Value>>, project: string, show: Value -> string)
    : ((string, Value)) --> Result<seq<string>>
  {
    (service: (string, Value)) requires Tables.Valid(vols) =>
      ContainerBlock(known, vols, service.0, service.1, DependenciesOf(deps, service.0), project, show)
  }

  /** The whole module. Adding the project to the network set raises first
      when the project name is a list or a mapping (it cannot be hashed); the
      services must be a mapping. */
  function NixConfig(vars: Table, vols: Table, services: Value, project: Value,
                     deps: map<string, seq<Value>>, show: Value -> string): Result<seq<string>>
    requires Tables.Valid(vars) && Tables.Valid(vols)
  {
    if project.List? || project.Dict? then Err(BadType)
    else if !services.Dict? then Err(MissingAttribute)
    else
      var p := PyStr(project, show);
      var blocks :- ContainerBlocks(services.entries, ServiceBlock(vars.at.Keys, vols, deps, p, show));
      Ok(HEADER + LetLines(vars, p) + BODY_OPEN + [NetworkDefinition(p), CONTAINERS_OPEN]
         + ContainerLines(blocks) + FOOTER)
  }

  /** A list or mapping project name raises a TypeError, then services that
      are not a mapping raise an AttributeError; otherwise the module is
      produced exactly when every service's block is. */
  lemma NixConfigOutcome(vars: Table, vols: Table, services: Value, project: Value,
                         deps: map<string, seq<Value>>, show: Value -> string)
    requires Tables.Valid(vars) && Tables.Valid(vols)
    ensures var r := NixConfig(vars, vols, services, project, deps, show);
      && ((project.List? || project.Dict?) ==> r == Err(BadType))
      && (!(project.List? || project.Dict?) && !services.Dict? ==> r == Err(MissingAttribute))
      && (r.Ok? <==>
            && !(project.List? || project.Dict?) && services.Dict?
            && forall i :: 0 <= i < |services.entries| ==>
                 ServiceBlock(vars.at.Keys, vols, deps, PyStr(project, show), show)(services.entries[i]).Ok?)
  {
  }

  /** `lines` open with `head` and close with `foot`. */
  predicate FramedBy(lines: seq<string>, head: seq<string>, foot: seq<string>) {
    |lines| >= |head| + |foot| && lines[..|head|] == head && lines[|lines| - |foot|..] == foot
  }

  lemma Framed(head: seq<string>, a: seq<string>, b: seq<string>, c: seq<string>, d: seq<string>, foot: seq<string>)
    ensures FramedBy(head + a + b + c + d + foot, head, foot)
  {
    var ls := head + a + b + c + d + foot;
    assert ls[..|head|] == head;
    assert ls[|ls| - |foot|..] == foot;
  }

  /** The module opens with the quadlet header and closes with its footer. */
  lemma NixConfigFramed(vars: Table, vols: Table, services: Value, project: Value,
                        deps: map<string, seq<Value>>, show: Value -> string)
    requires Tables.Valid(vars) && Tables.Valid(vols)
    requires NixConfig(vars, vols, services, project, deps, show).Ok?
    ensures FramedBy(NixConfig(vars, vols, services, project, deps, show).value, HEADER, FOOTER)
  {
    var p := PyStr(project, show);
    var blocks := ContainerBlocks(services.entries, ServiceBlock(vars.at.Keys, vols, deps, p, show)).value;
    var lets := LetLines(vars, p);
    var named := [NetworkDefinition(p), CONTAINERS_OPEN];
    var containers := ContainerLines(blocks);
    assert NixConfig(vars, vols, services, project, deps, show).value
        == HEADER + lets + BODY_OPEN + named + containers + FOOTER;
    Framed(HEADER, lets, BODY_OPEN, named, containers, FOOTER);
  }

  /** The `let` part binds every variable to its value and sets the stack
      path. */
  lemma LetLinesComplete(vars: Table, project: string)
    requires Tables.Valid(vars)
    ensures forall k :: k in vars.at ==> Binding(k, vars.at[k]) in LetLines(vars, project)
    ensures StackPathLine(project) in LetLines(vars, project)
  {
    var lines := LetLines(vars, project);
    forall k | k in vars.at ensures Binding(k, vars.at[k]) in lines {
      var i :| 0 <= i < |vars.order| && vars.order[i] == k;
      assert lines[i] == VariableLines(vars)[i];
    }
    assert lines[|vars.order|] == StackPathLine(project);
  }

  /** Every service's block, when it has one, opens with the service's name. */
  lemma ServiceBlocksOpen(known: set<string>, vols: Table, deps: map<string, seq<Value>>, project: string,
                          show: Value -> string)
    requires Tables.Valid(vols)
    ensures forall service: (string, Value) :: ServiceBlock(known, vols, deps, project, show)(service).Ok? ==>
      var ls := ServiceBlock(known, vols, deps, project, show)(service).value;
      ls != [] && ls[0] == OpenLine(service.0)
  {
    forall service: (string, Value) | ServiceBlock(known, vols, deps, project, show)(service).Ok?
      ensures var ls := ServiceBlock(known, vols, deps, project, show)(service).value;
        ls != [] && ls[0] == OpenLine(service.0)
    {
      BlockAlwaysNetworked(known, vols, service.0, service.1, DependenciesOf(deps, service.0), project, show);
    }
  }

  /** When every block opens with its service's name, every service is
      opened in the containers part. */
  lemma BlocksOpened(services: seq<(string, Value)>, block: ((string, Value)) --> Result<seq<string>>)
    requires forall i :: 0 <= i < |services| ==> block.requires(services[i])
    requires ContainerBlocks(services, block).Ok?
    requires forall i :: 0 <= i < |services| ==>
      block(services[i]).Ok? ==> block(services[i]).value != [] && block(services[i]).value[0] == OpenLine(services[i].0)
    ensures forall i :: 0 <= i < |services| ==> OpenLine(services[i].0) in ContainerLines(ContainerBlocks(services, block).value)
  {
    var blocks := ContainerBlocks(services, block).value;
    forall i | 0 <= i < |services| ensures OpenLine(services[i].0) in ContainerLines(blocks) {
      FlattenHas(blocks, i, OpenLine(services[i].0));
    }
  }

  /** The module binds every variable to its value, sets the stack path and
      the bridge network of the project, and opens a block for every
      service. */
  lemma NixConfigComplete(vars: Table, vols: Table, services: Value, project: Value,
                          deps: map<string, seq<Value>>, show: Value -> string)
    requires Tables.Valid(vars) && Tables.Valid(vols)
    requires NixConfig(vars, vols, services, project, deps, show).Ok?
    ensures var ls := NixConfig(vars, vols, services, project, deps, show).value;
      var p := PyStr(project, show);
      && (forall k :: k in vars.at ==> Binding(k, vars.at[k]) in ls)
      && StackPathLine(p) in ls && NetworkDefinition(p) in ls
      && forall i :: 0 <= i < |services.entries| ==> OpenLine(services.entries[i].0) in ls
  {
    var p := PyStr(project, show);
    var block := ServiceBlock(vars.at.Keys, vols, deps, p, show);
    var containers := ContainerLines(ContainerBlocks(services.entries, block).value);
    var lets := LetLines(vars, p);
    var ls := HEADER + lets + BODY_OPEN + [NetworkDefinition(p), CONTAINERS_OPEN] + containers + FOOTER;
    assert NixConfig(vars, vols, services, project, deps, show).value == ls;
    LetLinesComplete(vars, p);
    ServiceBlocksOpen(vars.at.Keys, vols, deps, p, show);
    BlocksOpened(services.entries, block);
  }
}
