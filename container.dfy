/** `_generate_container_config`: the Nix block of one service, as the list of
    lines the block's text joins with newlines. */
module Container {
  import opened Outcomes
  import opened Text
  import opened ComposeValue
  import opened Tables
  import opened Placeholders
  import opened Volumes

  // The fixed lines and line shapes of a block, by indentation level.

  const BLOCK_INDENT: string := "        "
  const SECTION_INDENT: string := "          "
  const SETTING_INDENT: string := "            "
  const ITEM_INDENT: string := "              "

  function OpenLine(name: string): string { BLOCK_INDENT + name + " = {" }
  const CONTAINER_OPEN: string := SECTION_INDENT + "containerConfig = {"
  function ImageLine(image: string): string { SETTING_INDENT + "image = \"" + image + "\";" }
  const PORTS_OPEN: string := SETTING_INDENT + "publishPorts = ["
  const VOLUMES_OPEN: string := SETTING_INDENT + "volumes = ["
  const LIST_CLOSE: string := SETTING_INDENT + "];"
  /** An item of a list: a quoted string on a line of its own. */
  function QuotedItem(s: string): string { ITEM_INDENT + "\"" + s + "\"" }
  const ENV_FILE_LINE: string := SETTING_INDENT + "environmentFiles = [ config.sops.secrets.envFile.path ];"
  const ENV_OPEN: string := SETTING_INDENT + "environments = {"
  const ENV_CLOSE: string := SETTING_INDENT + "};"
  function EnvLine(key: string, text: string): string { ITEM_INDENT + key + " = \"" + text + "\";" }
  function HealthLine(command: string): string { SETTING_INDENT + "healthCmd = \"" + command + "\";" }
  function NetworkLine(project: string): string { SETTING_INDENT + "networks = [ networks." + project + ".ref ];" }
  /** The update-monitoring label every container gets; the printed line has
      two backslashes before each `d` and `.`. */
  const LABEL_LINES: seq<string> := [
    SETTING_INDENT + "labels = [",
    ITEM_INDENT + "\"wud.tag.include=^v\\\\d+\\\\.\\\\d+\\\\.\\\\d+$\"",
    LIST_CLOSE
  ]
  const SECTION_CLOSE: string := SECTION_INDENT + "};"
  const SERVICE_OPEN: string := SECTION_INDENT + "serviceConfig = {"
  function RestartLine(policy: string): string { SETTING_INDENT + "Restart = \"" + policy + "\";" }
  const UNIT_OPEN: string := SECTION_INDENT + "unitConfig = {"
  const AFTER_OPEN: string := SETTING_INDENT + "After = ["
  const REQUIRES_OPEN: string := SETTING_INDENT + "Requires = ["
  const BLOCK_CLOSE: string := BLOCK_INDENT + "};"

  const LOOPBACK: string := "127.0.0.1:"
  const ANY_ADDRESS: string := "0.0.0.0:"

  // The sections of a block, in the order they are emitted.

  /** A truthy image, which must be a string, with its placeholders
      rewritten. */
  function ImageSection(known: set<string>, image: Value): (r: Result<seq<string>>)
    ensures r.Err? <==> Truthy(image) && !image.Str?
    ensures r.Ok? ==> |r.value| <= 1 && (r.value == [] <==> !Truthy(image))
    ensures r.Ok? && Truthy(image) ==> r.value == [ImageLine(ReplaceEnvVars(known, image.s))]
  {
    if !Truthy(image) then Ok([])
    else if !image.Str? then Err(BadType)
    else Ok([ImageLine(ReplaceEnvVars(known, image.s))])
  }

  /** A published port: a string mapping with a ':' is bound to the loopback
      address unless it already names the loopback or the any-address; any
      other port is printed as it is. */
  function PortText(port: Value, show: Value -> string): (r: string)
    ensures port.Str? && ':' in port.s ==>
      && (r == port.s || r == LOOPBACK + port.s)
      && (StartsWith(r, LOOPBACK) || StartsWith(r, ANY_ADDRESS))
    ensures !(port.Str? && ':' in port.s) ==> r == PyStr(port, show)
  {
    if port.Str? && ':' in port.s then
      if !StartsWith(port.s, LOOPBACK) && !StartsWith(port.s, ANY_ADDRESS) then LOOPBACK + port.s
      else port.s
    else PyStr(port, show)
  }

  /** A mapping with a bind address is kept exactly when it already names the
      loopback or the any-address. */
  lemma PortKeptIffBound(s: string, show: Value -> string)
    requires ':' in s
    ensures PortText(Str(s), show) == s <==> StartsWith(s, LOOPBACK) || StartsWith(s, ANY_ADDRESS)
  {
    if !StartsWith(s, LOOPBACK) && !StartsWith(s, ANY_ADDRESS) {
      assert |LOOPBACK + s| != |s|;
    }
  }

  /** Rendering a rendered port changes nothing. */
  lemma PortTextStable(port: Value, show: Value -> string)
    requires port.Str? && ':' in port.s
    ensures PortText(Str(PortText(port, show)), show) == PortText(port, show)
  {
    var r := PortText(port, show);
    if r != port.s {
      assert r[|LOOPBACK|..] == port.s;
      var k :| 0 <= k < |port.s| && port.s[k] == ':';
      assert r[|LOOPBACK| + k] == ':';
    }
  }

  function PortLines(ports: seq<Value>, show: Value -> string): seq<string> {
    seq(|ports|, i requires 0 <= i < |ports| => QuotedItem(PortText(ports[i], show)))
  }

  /** Truthy ports, which must be iterable, as a `publishPorts` list. */
  function PortSection(ports: Value, show: Value -> string): (r: Result<seq<string>>)
    ensures !Truthy(ports) ==> r == Ok([])
    ensures r.Err? <==> Truthy(ports) && !(ports.List? || ports.Dict? || ports.Str?)
    ensures r.Ok? && Truthy(ports) ==>
      var items := Iterate(ports).value;
      && |r.value| == |items| + 2 && r.value[0] == PORTS_OPEN && r.value[|r.value| - 1] == LIST_CLOSE
      && forall i :: 0 <= i < |items| ==> r.value[i + 1] == QuotedItem(PortText(items[i], show))
  {
    if !Truthy(ports) then Ok([])
    else
      var items :- Iterate(ports);
      Ok([PORTS_OPEN] + PortLines(items, show) + [LIST_CLOSE])
  }

  /** The converted mounts, one item each, or the exception of the first that
      raises. */
  function MountLines(known: set<string>, vols: Table, mounts: seq<Value>, show: Value -> string): (r: Result<seq<string>>)
    requires Tables.Valid(vols)
    ensures r.Ok? <==> forall i :: 0 <= i < |mounts| ==> ConvertVolume(known, vols, mounts[i], show).Ok?
    decreases |mounts|
  {
    if mounts == [] then Ok([])
    else
      var init := mounts[..|mounts| - 1];
      assert forall i :: 0 <= i < |init| ==> mounts[i] == init[i];
      var before :- MountLines(known, vols, init, show);
      var last :- ConvertVolume(known, vols, mounts[|mounts| - 1], show);
      Ok(before + [QuotedItem(last)])
  }

  /** When every mount converts, item `i` is the quoted conversion of mount `i`. */
  lemma {:induction false} MountLinesItems(known: set<string>, vols: Table, mounts: seq<Value>, show: Value -> string)
    requires Tables.Valid(vols) && MountLines(known, vols, mounts, show).Ok?
    ensures var items := MountLines(known, vols, mounts, show).value;
      && |items| == |mounts|
      && forall i :: 0 <= i < |mounts| ==> items[i] == QuotedItem(ConvertVolume(known, vols, mounts[i], show).value)
    decreases |mounts|
  {
    if mounts != [] {
      var n := |mounts| - 1;
      var init := mounts[..n];
      MountLinesItems(known, vols, init, show);
      var before := MountLines(known, vols, init, show).value;
      var items := MountLines(known, vols, mounts, show).value;
      assert items == before + [QuotedItem(ConvertVolume(known, vols, mounts[n], show).value)];
      forall i | 0 <= i < |mounts| ensures items[i] == QuotedItem(ConvertVolume(known, vols, mounts[i], show).value) {
        if i < n {
          assert items[i] == before[i] && mounts[i] == init[i];
        }
      }
    }
  }

  /** Converting one more mount appends its item, or raises its exception. */
  lemma MountLinesStep(known: set<string>, vols: Table, mounts: seq<Value>, i: nat, show: Value -> string)
    requires Tables.Valid(vols) && i < |mounts| && MountLines(known, vols, mounts[..i], show).Ok?
    ensures var r := MountLines(known, vols, mounts[..i + 1], show);
      match ConvertVolume(known, vols, mounts[i], show)
      case Ok(item) => r == Ok(MountLines(known, vols, mounts[..i], show).value + [QuotedItem(item)])
      case Err(e) => r == Err(e)
  {
    assert mounts[..i + 1][..i] == mounts[..i];
  }

  /** The exception of the first mounts is the exception of all of them. */
  lemma {:induction false} MountLinesPrefixFails(known: set<string>, vols: Table, mounts: seq<Value>, k: nat, show: Value -> string)
    requires Tables.Valid(vols) && k <= |mounts| && MountLines(known, vols, mounts[..k], show).Err?
    ensures MountLines(known, vols, mounts, show) == MountLines(known, vols, mounts[..k], show)
    decreases |mounts|
  {
    if k < |mounts| {
      var init := mounts[..|mounts| - 1];
      assert init[..k] == mounts[..k];
      MountLinesPrefixFails(known, vols, init, k, show);
    } else {
      assert mounts[..k] == mounts;
    }
  }

  /** Truthy mounts, which must be iterable, as a `volumes` list. */
  function VolumeSection(known: set<string>, vols: Table, mounts: Value, show: Value -> string): (r: Result<seq<string>>)
    requires Tables.Valid(vols)
    ensures !Truthy(mounts) ==> r == Ok([])
    ensures Truthy(mounts) && !(mounts.List? || mounts.Dict? || mounts.Str?) ==> r == Err(BadType)
    ensures Truthy(mounts) && Iterate(mounts).Ok? ==>
      var items := Iterate(mounts).value;
      (r.Ok? <==> forall i :: 0 <= i < |items| ==> ConvertVolume(known, vols, items[i], show).Ok?)
    ensures r.Ok? && Truthy(mounts) ==>
      r.value == [VOLUMES_OPEN] + MountLines(known, vols, Iterate(mounts).value, show).value + [LIST_CLOSE]
  {
    if !Truthy(mounts) then Ok([])
    else
      var items :- Iterate(mounts);
      var lines :- MountLines(known, vols, items, show);
      Ok([VOLUMES_OPEN] + lines + [LIST_CLOSE])
  }

  /** A truthy `env_file`, whatever it names, as the secret environment file. */
  function EnvFileSection(envFile: Value): (r: seq<string>)
    ensures r == [] <==> !Truthy(envFile)
    ensures r != [] ==> r == [ENV_FILE_LINE]
  {
    if Truthy(envFile) then [ENV_FILE_LINE] else []
  }

  /** The value of an environment entry: a string has its placeholders
      rewritten, anything else is printed as it is. */
  function EnvText(known: set<string>, v: Value, show: Value -> string): (r: string)
    ensures v.Str? ==> r == ReplaceEnvVars(known, v.s)
    ensures !v.Str? ==> r == PyStr(v, show)
  {
    if v.Str? then ReplaceEnvVars(known, v.s) else PyStr(v, show)
  }

  /** One line per entry, in order: the loop over `environment.items()`. */
  function EnvLines(known: set<string>, entries: seq<(string, Value)>, show: Value -> string): seq<string>
    decreases |entries|
  {
    if entries == [] then []
    else
      var last := entries[|entries| - 1];
      EnvLines(known, entries[..|entries| - 1], show) + [EnvLine(last.0, EnvText(known, last.1, show))]
  }

  /** One more entry appends its line. */
  lemma EnvLinesNext(known: set<string>, entries: seq<(string, Value)>, i: nat, show: Value -> string)
    requires i < |entries|
    ensures EnvLines(known, entries[..i + 1], show)
         == EnvLines(known, entries[..i], show) + [EnvLine(entries[i].0, EnvText(known, entries[i].1, show))]
  {
    assert entries[..i + 1][..i] == entries[..i];
  }

  /** Every environment line is nested inside the `environments` set. */
  lemma {:induction false} EnvLinesNested(known: set<string>, entries: seq<(string, Value)>, show: Value -> string)
    ensures AllNested(EnvLines(known, entries, show))
    decreases |entries|
  {
    if entries != [] {
      var last := entries[|entries| - 1];
      EnvLinesNested(known, entries[..|entries| - 1], show);
      LineShapesNested(EnvText(known, last.1, show), last.0);
      AppendNested(EnvLines(known, entries[..|entries| - 1], show), [EnvLine(last.0, EnvText(known, last.1, show))]);
    }
  }

  /** A truthy mapping-form environment as an `environments` set; a list-form
      one is dropped. */
  function EnvironmentSection(known: set<string>, env: Value, show: Value -> string): (r: seq<string>)
    ensures r != [] <==> env.Dict? && env.entries != []
    ensures r != [] ==> r == [ENV_OPEN] + EnvLines(known, env.entries, show) + [ENV_CLOSE]
  {
    if Truthy(env) && env.Dict? then [ENV_OPEN] + EnvLines(known, env.entries, show) + [ENV_CLOSE] else []
  }

  /** The command of a truthy `test`: a list drops its first word (CMD or
      CMD-SHELL) and joins the rest, which must be strings, with spaces;
      anything else is printed as it is. */
  function HealthCommand(test: Value, show: Value -> string): (r: Result<string>)
    ensures r.Err? <==> test.List? && exists i :: 1 <= i < |test.items| && !test.items[i].Str?
    ensures !test.List? ==> r == Ok(PyStr(test, show))
  {
    match test
    case List(items) =>
      var args := if items == [] then [] else items[1..];
      assert forall i :: 0 <= i < |args| ==> args[i] == items[i + 1];
      if forall i :: 0 <= i < |args| ==> args[i].Str? then
        Ok(Join(" ", seq(|args|, i requires 0 <= i < |args| => args[i].s)))
      else Err(BadType)
    case _ => Ok(PyStr(test, show))
  }

  /** A list-form test `[CMD, a, b, ...]` runs `a b ...`. */
  lemma HealthListCommand(first: Value, args: seq<string>, show: Value -> string)
    ensures HealthCommand(List([first] + seq(|args|, i requires 0 <= i < |args| => Str(args[i]))), show)
         == Ok(Join(" ", args))
  {
    var items := [first] + seq(|args|, i requires 0 <= i < |args| => Str(args[i]));
    assert items[1..] == seq(|args|, i requires 0 <= i < |args| => Str(args[i]));
    assert seq(|args|, i requires 0 <= i < |args| => items[1..][i].s) == args;
  }

  /** A truthy health check, which must be a mapping, gives a `healthCmd` line
      unless it is disabled or has no truthy test. */
  function HealthSection(hc: Value, show: Value -> string): (r: Result<seq<string>>)
    ensures Truthy(hc) && !hc.Dict? ==> r == Err(MissingAttribute)
    ensures hc.Dict? ==>
      var test := GetOr(hc.entries, "test", Null);
      && (r.Err? <==> !Truthy(GetOr(hc.entries, "disable", Null)) && Truthy(test) && HealthCommand(test, show).Err?)
      && (r.Ok? && r.value != [] ==> HealthCommand(test, show).Ok? && r.value == [HealthLine(HealthCommand(test, show).value)])
    ensures r.Ok? ==> |r.value| <= 1
  {
    if !Truthy(hc) then Ok([])
    else if !hc.Dict? then Err(MissingAttribute)
    else if Truthy(GetOr(hc.entries, "disable", Null)) then Ok([])
    else
      var test := GetOr(hc.entries, "test", Null);
      if !Truthy(test) then Ok([])
      else
        var command :- HealthCommand(test, show);
        Ok([HealthLine(command)])
  }

  /** A health check emits its line exactly when it is an enabled mapping with
      a truthy test whose command can be formed. */
  lemma HealthEmittedIff(hc: Value, show: Value -> string)
    requires HealthSection(hc, show).Ok?
    ensures HealthSection(hc, show).value != [] <==>
      && hc.Dict? && hc.entries != []
      && !Truthy(GetOr(hc.entries, "disable", Null))
      && Truthy(GetOr(hc.entries, "test", Null))
  {
  }

  /** A truthy restart policy as a `serviceConfig` section. */
  function RestartSection(restart: Value, show: Value -> string): (r: seq<string>)
    ensures r == [] <==> !Truthy(restart)
    ensures r != [] ==> |r| == 3 && r[0] == SERVICE_OPEN && r[1] == RestartLine(PyStr(restart, show)) && r[2] == SECTION_CLOSE
  {
    if Truthy(restart) then [SERVICE_OPEN, RestartLine(PyStr(restart, show)), SECTION_CLOSE] else []
  }

  function DependencyLines(deps: seq<Value>, show: Value -> string): seq<string> {
    seq(|deps|, i requires 0 <= i < |deps| => QuotedItem(PyStr(deps[i], show) + ".service"))
  }

  /** The dependencies, if any, as a `unitConfig` section that both orders the
      unit after them and requires them: its `After` and `Requires` lists are
      the same, one `<dependency>.service` item per dependency, in order. */
  function UnitSection(deps: seq<Value>, show: Value -> string): (r: seq<string>)
    ensures deps == [] ==> r == []
    ensures deps != [] ==>
      && |r| == 2 * |deps| + 6
      && r[..2] == [UNIT_OPEN, AFTER_OPEN]
      && r[|deps| + 2..|deps| + 4] == [LIST_CLOSE, REQUIRES_OPEN]
      && r[|r| - 2..] == [LIST_CLOSE, SECTION_CLOSE]
      && r[2..|deps| + 2] == r[|deps| + 4..|r| - 2]
      && forall i :: 0 <= i < |deps| ==> r[2 + i] == QuotedItem(PyStr(deps[i], show) + ".service")
  {
    if deps == [] then []
    else
      var items := DependencyLines(deps, show);
      var r := [UNIT_OPEN, AFTER_OPEN] + items + [LIST_CLOSE, REQUIRES_OPEN] + items + [LIST_CLOSE, SECTION_CLOSE];
      assert r[2..|deps| + 2] == items == r[|deps| + 4..|r| - 2];
      r
  }

  /** The `containerConfig` settings of a service, with the exception of the
      first section that raises: image, ports, volumes, then the health
      check. */
  function ContainerSettings(known: set<string>, vols: Table, config: seq<(string, Value)>, project: string, show: Value -> string): (r: Result<seq<string>>)
    requires Tables.Valid(vols)
  {
    var image :- ImageSection(known, GetOr(config, "image", Str("")));
    var ports :- PortSection(GetOr(config, "ports", List([])), show);
    var mounts :- VolumeSection(known, vols, GetOr(config, "volumes", List([])), show);
    var health :- HealthSection(GetOr(config, "healthcheck", Dict([])), show);
    Ok(image + ports + mounts
       + EnvFileSection(GetOr(config, "env_file", Null))
       + EnvironmentSection(known, GetOr(config, "environment", Dict([])), show)
       + health + [NetworkLine(project)] + LABEL_LINES)
  }

  /** The block of one service: its settings, then its restart policy and its
      dependencies. A service that is not a mapping raises. */
  /** The settings of a service are produced exactly when its image, ports,
      volumes and healthcheck sections all convert. */
  lemma SettingsSucceedIff(known: set<string>, vols: Table, config: seq<(string, Value)>, project: string, show: Value -> string)
    requires Tables.Valid(vols)
    ensures ContainerSettings(known, vols, config, project, show).Ok? <==>
      && ImageSection(known, GetOr(config, "image", Str(""))).Ok?
      && PortSection(GetOr(config, "ports", List([])), show).Ok?
      && VolumeSection(known, vols, GetOr(config, "volumes", List([])), show).Ok?
      && HealthSection(GetOr(config, "healthcheck", Dict([])), show).Ok?
  {
  }

  function ContainerBlock(known: set<string>, vols: Table, name: string, config: Value,
                          deps: seq<Value>, project: string, show: Value -> string): (r: Result<seq<string>>)
    requires Tables.Valid(vols)
  {
    if !config.Dict? then Err(MissingAttribute)
    else
      var settings :- ContainerSettings(known, vols, config.entries, project, show);
      Ok([OpenLine(name), CONTAINER_OPEN] + settings + [SECTION_CLOSE]
         + RestartSection(GetOr(config.entries, "restart", Null), show)
         + UnitSection(deps, show) + [BLOCK_CLOSE, ""])
  }
  /** A service whose configuration is not a mapping raises an
      AttributeError; otherwise its block is produced exactly when its
      settings are. */
  lemma BlockSucceedsIff(known: set<string>, vols: Table, name: string, config: Value,
                         deps: seq<Value>, project: string, show: Value -> string)
    requires Tables.Valid(vols)
    ensures !config.Dict? ==> ContainerBlock(known, vols, name, config, deps, project, show) == Err(MissingAttribute)
    ensures config.Dict? ==>
      (ContainerBlock(known, vols, name, config, deps, project, show).Ok?
       <==> ContainerSettings(known, vols, config.entries, project, show).Ok?)
  {
  }


  // Properties of a block.

  /** A line indented deeper than the sections of a block. */
  predicate Nested(line: string) {
    |line| > 10 && line[10] == ' '
  }

  predicate AllNested(lines: seq<string>) {
    forall i :: 0 <= i < |lines| ==> Nested(lines[i])
  }

  /** A line that is not nested is in no list of nested lines. */
  lemma NotNested(line: string, lines: seq<string>)
    requires AllNested(lines) && !Nested(line)
    ensures line !in lines
  {
  }

  /** The fixed lines inside a `containerConfig` section are nested. */
  lemma FixedLinesNested()
    ensures Nested(PORTS_OPEN) && Nested(VOLUMES_OPEN) && Nested(LIST_CLOSE) && Nested(ENV_FILE_LINE)
    ensures Nested(ENV_OPEN) && Nested(ENV_CLOSE) && Nested(AFTER_OPEN) && Nested(REQUIRES_OPEN)
    ensures AllNested(LABEL_LINES)
  {
  }

  lemma LineShapesNested(text: string, key: string)
    ensures Nested(ImageLine(text)) && Nested(QuotedItem(text)) && Nested(EnvLine(key, text))
    ensures Nested(HealthLine(text)) && Nested(NetworkLine(text)) && Nested(RestartLine(text))
  {
  }

  lemma QuotedNested(items: seq<string>, text: seq<string>)
    requires |items| == |text| && forall i :: 0 <= i < |items| ==> items[i] == QuotedItem(text[i])
    ensures AllNested(items)
  {
    forall i | 0 <= i < |items| ensures Nested(items[i]) {
      LineShapesNested(text[i], "");
    }
  }

  lemma PortsNested(ports: Value, show: Value -> string)
    requires PortSection(ports, show).Ok?
    ensures AllNested(PortSection(ports, show).value)
  {
    if Truthy(ports) {
      var items := Iterate(ports).value;
      QuotedNested(PortLines(items, show), seq(|items|, i requires 0 <= i < |items| => PortText(items[i], show)));
      FixedLinesNested();
      AppendNested([PORTS_OPEN], PortLines(items, show));
      AppendNested([PORTS_OPEN] + PortLines(items, show), [LIST_CLOSE]);
    }
  }

  lemma VolumesNested(known: set<string>, vols: Table, mounts: Value, show: Value -> string)
    requires Tables.Valid(vols) && VolumeSection(known, vols, mounts, show).Ok?
    ensures AllNested(VolumeSection(known, vols, mounts, show).value)
  {
    if Truthy(mounts) {
      var items := Iterate(mounts).value;
      var lines := MountLines(known, vols, items, show).value;
      MountLinesItems(known, vols, items, show);
      QuotedNested(lines, seq(|items|, i requires 0 <= i < |items| => ConvertVolume(known, vols, items[i], show).value));
      FixedLinesNested();
      AppendNested([VOLUMES_OPEN], lines);
      AppendNested([VOLUMES_OPEN] + lines, [LIST_CLOSE]);
    }
  }

  lemma EnvironmentNested(known: set<string>, env: Value, show: Value -> string)
    ensures AllNested(EnvironmentSection(known, env, show))
  {
    if Truthy(env) && env.Dict? {
      var lines := EnvLines(known, env.entries, show);
      EnvLinesNested(known, env.entries, show);
      FixedLinesNested();
      AppendNested([ENV_OPEN], lines);
      AppendNested([ENV_OPEN] + lines, [ENV_CLOSE]);
    }
  }

  lemma DependenciesNested(deps: seq<Value>, show: Value -> string)
    ensures AllNested(DependencyLines(deps, show))
  {
    var lines := DependencyLines(deps, show);
    QuotedNested(lines, seq(|deps|, i requires 0 <= i < |deps| => PyStr(deps[i], show) + ".service"));
  }

  lemma SettingsNested(known: set<string>, vols: Table, config: seq<(string, Value)>, project: string, show: Value -> string)
    requires Tables.Valid(vols) && ContainerSettings(known, vols, config, project, show).Ok?
    ensures AllNested(ContainerSettings(known, vols, config, project, show).value)
  {
    var image := ImageSection(known, GetOr(config, "image", Str(""))).value;
    var ports := PortSection(GetOr(config, "ports", List([])), show).value;
    var mounts := VolumeSection(known, vols, GetOr(config, "volumes", List([])), show).value;
    var health := HealthSection(GetOr(config, "healthcheck", Dict([])), show).value;
    var envFile := EnvFileSection(GetOr(config, "env_file", Null));
    var env := EnvironmentSection(known, GetOr(config, "environment", Dict([])), show);
    PortsNested(GetOr(config, "ports", List([])), show);
    VolumesNested(known, vols, GetOr(config, "volumes", List([])), show);
    EnvironmentNested(known, GetOr(config, "environment", Dict([])), show);
    var settings := image + ports + mounts + envFile + env + health + [NetworkLine(project)] + LABEL_LINES;
    assert ContainerSettings(known, vols, config, project, show).value == settings;
    ImageNested(known, GetOr(config, "image", Str("")));
    HealthNested(GetOr(config, "healthcheck", Dict([])), show);
    FixedLinesNested();
    LineShapesNested(project, "");
    AppendNested(image, ports);
    AppendNested(image + ports, mounts);
    AppendNested(image + ports + mounts, envFile);
    AppendNested(image + ports + mounts + envFile, env);
    AppendNested(image + ports + mounts + envFile + env, health);
    AppendNested(image + ports + mounts + envFile + env + health, [NetworkLine(project)]);
    AppendNested(image + ports + mounts + envFile + env + health + [NetworkLine(project)], LABEL_LINES);
  }

  lemma ImageNested(known: set<string>, image: Value)
    requires ImageSection(known, image).Ok?
    ensures AllNested(ImageSection(known, image).value)
  {
    if Truthy(image) {
      LineShapesNested(ReplaceEnvVars(known, image.s), "");
    }
  }

  lemma HealthNested(hc: Value, show: Value -> string)
    requires HealthSection(hc, show).Ok?
    ensures AllNested(HealthSection(hc, show).value)
  {
    var r := HealthSection(hc, show).value;
    if r != [] {
      LineShapesNested(HealthCommand(GetOr(hc.entries, "test", Null), show).value, "");
    }
  }

  lemma AppendNested(a: seq<string>, b: seq<string>)
    requires AllNested(a) && AllNested(b)
    ensures AllNested(a + b)
  {
    forall i | 0 <= i < |a + b| ensures Nested((a + b)[i]) {
      if i >= |a| {
        assert (a + b)[i] == b[i - |a|];
      }
    }
  }

  /** How a block is put together. */
  lemma BlockParts(known: set<string>, vols: Table, name: string, config: Value,
                   deps: seq<Value>, project: string, show: Value -> string)
    requires Tables.Valid(vols) && ContainerBlock(known, vols, name, config, deps, project, show).Ok?
    ensures config.Dict? && ContainerSettings(known, vols, config.entries, project, show).Ok?
    ensures ContainerBlock(known, vols, name, config, deps, project, show).value
         == [OpenLine(name), CONTAINER_OPEN] + ContainerSettings(known, vols, config.entries, project, show).value
            + [SECTION_CLOSE] + RestartSection(GetOr(config.entries, "restart", Null), show)
            + UnitSection(deps, show) + [BLOCK_CLOSE, ""]
  {
  }

  /** The settings always end with the project network and the label. */
  lemma SettingsEnd(known: set<string>, vols: Table, config: seq<(string, Value)>, project: string, show: Value -> string)
    requires Tables.Valid(vols) && ContainerSettings(known, vols, config, project, show).Ok?
    ensures var settings := ContainerSettings(known, vols, config, project, show).value;
      |settings| >= 4 && settings[|settings| - 4..] == [NetworkLine(project)] + LABEL_LINES
  {
    var image := ImageSection(known, GetOr(config, "image", Str(""))).value;
    var ports := PortSection(GetOr(config, "ports", List([])), show).value;
    var mounts := VolumeSection(known, vols, GetOr(config, "volumes", List([])), show).value;
    var health := HealthSection(GetOr(config, "healthcheck", Dict([])), show).value;
    var envFile := EnvFileSection(GetOr(config, "env_file", Null));
    var env := EnvironmentSection(known, GetOr(config, "environment", Dict([])), show);
    var front := image + ports + mounts + envFile + env + health;
    assert ContainerSettings(known, vols, config, project, show).value == front + ([NetworkLine(project)] + LABEL_LINES);
  }

  /** The block of a service opens with its name, always joins the project
      network and carries the update-monitoring label. */
  lemma BlockAlwaysNetworked(known: set<string>, vols: Table, name: string, config: Value,
                             deps: seq<Value>, project: string, show: Value -> string)
    requires Tables.Valid(vols) && ContainerBlock(known, vols, name, config, deps, project, show).Ok?
    ensures var ls := ContainerBlock(known, vols, name, config, deps, project, show).value;
      && |ls| > 2 && ls[0] == OpenLine(name) && ls[1] == CONTAINER_OPEN
      && ls[|ls| - 2..] == [BLOCK_CLOSE, ""]
      && NetworkLine(project) in ls
      && forall line :: line in LABEL_LINES ==> line in ls
  {
    BlockParts(known, vols, name, config, deps, project, show);
    SettingsEnd(known, vols, config.entries, project, show);
    BlockFrame(name, ContainerSettings(known, vols, config.entries, project, show).value,
               RestartSection(GetOr(config.entries, "restart", Null), show), UnitSection(deps, show), project);
  }

  lemma BlockFrame(name: string, settings: seq<string>, restart: seq<string>, unit: seq<string>, project: string)
    requires |settings| >= 4 && settings[|settings| - 4..] == [NetworkLine(project)] + LABEL_LINES
    ensures var ls := [OpenLine(name), CONTAINER_OPEN] + settings + [SECTION_CLOSE] + restart + unit + [BLOCK_CLOSE, ""];
      && |ls| > 2 && ls[0] == OpenLine(name) && ls[1] == CONTAINER_OPEN
      && ls[|ls| - 2..] == [BLOCK_CLOSE, ""]
      && NetworkLine(project) in ls
      && forall line :: line in LABEL_LINES ==> line in ls
  {
    var ls := [OpenLine(name), CONTAINER_OPEN] + settings + [SECTION_CLOSE] + restart + unit + [BLOCK_CLOSE, ""];
    var k := 2 + |settings| - 4;
    assert ls[k] == settings[|settings| - 4] == NetworkLine(project);
    assert forall j :: 0 <= j < 3 ==> ls[k + 1 + j] == settings[|settings| - 3 + j] == LABEL_LINES[j];
  }

  /** A block has a `serviceConfig` section exactly when the service has a
      truthy restart policy (for a name that does not start with a blank). */
  lemma ServiceConfigIffRestart(known: set<string>, vols: Table, name: string, config: Value,
                                deps: seq<Value>, project: string, show: Value -> string)
    requires Tables.Valid(vols) && ContainerBlock(known, vols, name, config, deps, project, show).Ok?
    requires name == [] || name[0] != ' '
    ensures SERVICE_OPEN in ContainerBlock(known, vols, name, config, deps, project, show).value
        <==> Truthy(GetOr(config.entries, "restart", Null))
  {
    BlockParts(known, vols, name, config, deps, project, show);
    SettingsNested(known, vols, config.entries, project, show);
    OpenLineNotSection(name, SERVICE_OPEN);
    var restart := RestartSection(GetOr(config.entries, "restart", Null), show);
    var unit := UnitSection(deps, show);
    HeaderInBlock(SERVICE_OPEN, name, ContainerSettings(known, vols, config.entries, project, show).value, restart, unit);
    UnitLines(deps, show);
  }

  /** A section header other than the block's own lines is in a block exactly
      when its restart or unit part has it. */
  lemma HeaderInBlock(header: string, name: string, settings: seq<string>, restart: seq<string>, unit: seq<string>)
    requires AllNested(settings) && !Nested(header) && OpenLine(name) != header
    requires header !in [CONTAINER_OPEN, SECTION_CLOSE, BLOCK_CLOSE, ""]
    ensures header in [OpenLine(name), CONTAINER_OPEN] + settings + [SECTION_CLOSE] + restart + unit + [BLOCK_CLOSE, ""]
        <==> header in restart || header in unit
  {
    NotNested(header, settings);
  }

  /** The opening line of a service named without a leading blank is no
      section header. */
  lemma OpenLineNotSection(name: string, header: string)
    requires name == [] || name[0] != ' '
    requires |header| > 12 && header[..10] == SECTION_INDENT
    ensures OpenLine(name) != header
  {
    if name != [] {
      assert OpenLine(name)[8] == name[0] && header[8] == ' ';
    } else {
      assert |OpenLine(name)| == 12;
    }
  }

  /** The lines of a `unitConfig` section: its header, nested lines, and the
      section's closing line. */
  lemma UnitLines(deps: seq<Value>, show: Value -> string)
    ensures forall line :: line in UnitSection(deps, show) ==> line == UNIT_OPEN || line == SECTION_CLOSE || Nested(line)
  {
    if deps != [] {
      var items := DependencyLines(deps, show);
      DependenciesNested(deps, show);
      var middle := [AFTER_OPEN] + items + [LIST_CLOSE, REQUIRES_OPEN] + items + [LIST_CLOSE];
      UnitMiddleNested(items);
      Regroup(UNIT_OPEN, AFTER_OPEN, items, LIST_CLOSE, REQUIRES_OPEN, LIST_CLOSE, SECTION_CLOSE);
      FramedSection(middle);
    }
  }

  /** A section of two lists, regrouped as its header, its body and its
      closing line. */
  lemma Regroup<T>(x: T, y: T, b: seq<T>, p: T, q: T, c: T, t: T)
    ensures [x, y] + b + [p, q] + b + [c, t] == [x] + ([y] + b + [p, q] + b + [c]) + [t]
  {
    var l := [x, y] + b + [p, q] + b + [c, t];
    var r := [x] + ([y] + b + [p, q] + b + [c]) + [t];
    assert |l| == |r|;
    forall k | 0 <= k < |l| ensures l[k] == r[k] {
      if k == 0 {
      } else if k < |l| - 1 {
        assert r[k] == ([y] + b + [p, q] + b + [c])[k - 1];
      }
    }
  }

  /** The two dependency lists of a `unitConfig` section, with their headers
      and closing lines, are nested. */
  lemma UnitMiddleNested(items: seq<string>)
    requires AllNested(items)
    ensures AllNested([AFTER_OPEN] + items + [LIST_CLOSE, REQUIRES_OPEN] + items + [LIST_CLOSE])
  {
    FixedLinesNested();
    AppendNested([AFTER_OPEN], items);
    AppendNested([AFTER_OPEN] + items, [LIST_CLOSE, REQUIRES_OPEN]);
    AppendNested([AFTER_OPEN] + items + [LIST_CLOSE, REQUIRES_OPEN], items);
    AppendNested([AFTER_OPEN] + items + [LIST_CLOSE, REQUIRES_OPEN] + items, [LIST_CLOSE]);
  }

  /** Nested lines framed by the `unitConfig` header and a section close. */
  lemma FramedSection(middle: seq<string>)
    requires AllNested(middle)
    ensures forall line :: line in [UNIT_OPEN] + middle + [SECTION_CLOSE] ==> line == UNIT_OPEN || line == SECTION_CLOSE || Nested(line)
  {
    forall line | line in [UNIT_OPEN] + middle + [SECTION_CLOSE]
      ensures line == UNIT_OPEN || line == SECTION_CLOSE || Nested(line)
    {
      if line != UNIT_OPEN && line != SECTION_CLOSE {
        assert line in middle;
      }
    }
  }

  /** A block has a `unitConfig` section exactly when the service has
      dependencies (for a name that does not start with a blank). */
  lemma UnitConfigIffDependencies(known: set<string>, vols: Table, name: string, config: Value,
                                  deps: seq<Value>, project: string, show: Value -> string)
    requires Tables.Valid(vols) && ContainerBlock(known, vols, name, config, deps, project, show).Ok?
    requires name == [] || name[0] != ' '
    ensures UNIT_OPEN in ContainerBlock(known, vols, name, config, deps, project, show).value <==> deps != []
  {
    BlockParts(known, vols, name, config, deps, project, show);
    SettingsNested(known, vols, config.entries, project, show);
    OpenLineNotSection(name, UNIT_OPEN);
    var policy := GetOr(config.entries, "restart", Null);
    var restart := RestartSection(policy, show);
    var unit := UnitSection(deps, show);
    HeaderInBlock(UNIT_OPEN, name, ContainerSettings(known, vols, config.entries, project, show).value, restart, unit);
    LineShapesNested(PyStr(policy, show), "");
    assert UNIT_OPEN !in restart;
    if deps != [] {
      assert unit[0] == UNIT_OPEN;
    }
  }
}
