# compose-to-quadlet, modelled in Dafny

This project models `ComposeToQuadletConverter` from `compose_to_quadlet.py`. The converter turns a parsed Docker Compose document into the text of a quadlet-nix module (`virtualisation.quadlet = let ... in { ... }`). A conversion runs in five stages:
1. It fills the converter's volume table from the top-level `volumes` section. An external volume keeps its name. Any other volume lives at `${STACK_PATH}/<name>`.
2. It scans every service for `${NAME}` placeholders and gives each new name a suggested value in the variable table.
3. It reads each service's `depends_on`.
4. It renders one container block per service.
5. It assembles the `let` bindings, the project network and the blocks into the module.

The parsed document is a small JSON-like datatype (`ComposeValue.Value`: null, booleans, integers, strings, lists, and mappings with ordered string keys). Each `isinstance` test becomes a pattern match. Every Python exception the code can raise becomes a value of `Outcomes.Error`:
- `EmptyDocument` is the `ValueError` for an empty document.
- `MissingAttribute` is an `AttributeError`, such as `.get` or `.items` on a value that is not a mapping.
- `BadType` is a `TypeError`, such as iterating a scalar, a regex on a non-string, `' '.join` over a non-string, or hashing a list.

Each stage returns a `Result` that carries the first exception raised.

The converter is the class `ComposeToQuadlet.Converter`. Its fields `variables` and `volumes` are insertion-ordered tables (`Tables.Table`), updated in place by `ProcessVolumes` and `ExtractVariables` and read by the rendering methods. Every source loop that updates the tables or builds output lines is a `while` loop here. The exception is the search loop of `_convert_volume` (compose_to_quadlet.py:302-305), which only picks the first matching volume name; it is the recursive function `Volumes.SubstituteFrom`. Each method is proved against a specification function:
- `ResolveAll` for volume processing;
- `Discover` and `Extend` for variable discovery;
- `DependencyTable` for dependencies;
- `PortSection`, `VolumeSection` and `EnvironmentSection` for the sections of a block;
- `ContainerBlock` for one block;
- `ContainerBlocks` and `NixConfig` for the whole module.

The properties the source promises are proved about those functions.

The two regular expressions are scanners over `seq<char>`:
- The discovery regex `\$\{([^}]+)(?::-[^}]*)?\}` has a greedy first group. Its captured name runs to the next `}`, so `${A:-b}` is discovered as the name `A:-b`.
- The first rewrite pass `\$\{([^}]+):-([^}]+)\}` splits the body at the last `:-` that leaves both the name and the default non-empty, so `${A:-b:-}` has the name `A` and the default `b:-`. The second pass `\$\{([^}]+)\}` always puts back the text it matched, so it changes nothing.

The generated text is modelled as its list of lines. The source joins them with newlines, and the nested `'\n'.join` calls flatten into one list.

Three behaviours of the code are worth knowing, and the model follows the code in each:
- Placeholder rewriting (compose_to_quadlet.py:288-291) is not idempotent. `Placeholders.RewriteNotIdempotent` gives a text that a second rewrite changes again.
- Discovery (compose_to_quadlet.py:92) keeps a default clause in the discovered name: `${A:-b}` yields the name `A:-b` (`Placeholders.DiscoveryKeepsDefaultClause`).
- Volume processing (compose_to_quadlet.py:55) raises an `AttributeError` when the `volumes` section is present but is not a mapping (for example, empty in YAML, which is `None`).

## Model

| member | source | states |
|---|---|---|
| ComposeValue.Get | compose_to_quadlet.py:69 | `dict.get` finds a value exactly when some entry has the key, and the value it returns is bound to that key |
| ComposeValue.GetFirstBinding | compose_to_quadlet.py:69 | the value found is the one of the first entry with the key, as a mapping with unique keys has only one |
| ComposeValue.Iterate | compose_to_quadlet.py:74 | `for x in v` fails with a TypeError exactly when v is not a list, mapping or string, and visits nothing exactly when v is falsy |
| Tables.Put | compose_to_quadlet.py:58-61 | `d[k] = v` keeps the table well formed, binds k to v, appends a new key at the end and leaves an existing key in its place |
| Text.Split | compose_to_quadlet.py:312 | `split(':')` gives one more part than there are colons, no part holds a colon, and joining the parts with ':' gives the mount back |
| Placeholders.FindEnvVars | compose_to_quadlet.py:90-92 | every name found is non-empty, free of `}`, and occurs as `${name}` in the text |
| Placeholders.ReferenceDiscovered | compose_to_quadlet.py:90-92 | the name of a bare `${NAME}` is found wherever it occurs, as long as the text before it has no `${` |
| Placeholders.FindEnvVarsAfterReference | compose_to_quadlet.py:90-92 | a whole `${NAME}` contributes NAME, and the search goes on after its `}`: the names are NAME plus the names of the rest |
| Placeholders.FindEnvVarsSkip | compose_to_quadlet.py:90-92 | a character other than `$` adds no name, and the search goes on after it |
| Placeholders.ReferencesInSequence | compose_to_quadlet.py:90-92 | two references separated by text without `${`, as in `${REGISTRY}/app:${TAG}`, are both found |
| Placeholders.TwoReferences | compose_to_quadlet.py:90-92 | `${a}/${b}` names exactly `a` and `b` |
| Placeholders.OverlapHidesReference | compose_to_quadlet.py:90-92 | in `${${A}` the first `${` swallows the second: the only name found is `${A`, not `A` |
| Placeholders.DiscoveryKeepsDefaultClause | compose_to_quadlet.py:92 | `${A:-b}` is discovered as the single name `A:-b`, default clause included |
| Placeholders.NoOpeningNoNames | compose_to_quadlet.py:90-92 | a text without `${` has no names |
| Placeholders.Substitute | compose_to_quadlet.py:277-286 | a known name is put back as `${NAME}`; an unknown name with a non-empty default becomes that default; an unknown name without one, or with an empty one, is put back as `${NAME}` |
| Placeholders.DefaultsNeverLengthen | compose_to_quadlet.py:289 | the `${NAME:-default}` pass never makes a text longer |
| Placeholders.ReplaceEnvVars | compose_to_quadlet.py:288-293 | the second pass changes nothing: rewriting equals the `${NAME:-default}` pass alone |
| Placeholders.RewriteOrdinaryChar | compose_to_quadlet.py:288-291 | a leading character other than `$` is kept, and the rest of the text is rewritten on its own |
| Placeholders.ReplaceBareIsIdentity | compose_to_quadlet.py:277-286 | the `${NAME}` pass returns its input for every variable table |
| Placeholders.KnownReference | compose_to_quadlet.py:281-282 | for a default d that contains no `:-`, `${NAME:-d}` with NAME in the table becomes `${NAME}`, the default dropped |
| Placeholders.UnknownReference | compose_to_quadlet.py:283-284 | for a default d that contains no `:-`, `${NAME:-d}` with NAME not in the table becomes the literal `d` |
| Placeholders.BareReference | compose_to_quadlet.py:285-286 | a bare `${NAME}` stays as it is, whether or not NAME is in the table |
| Placeholders.RewriteWithoutOpening | compose_to_quadlet.py:275-293 | a text containing no `${` is returned unchanged |
| Placeholders.RewriteWithoutDefaults | compose_to_quadlet.py:289 | a text containing no `:-` is returned unchanged |
| Placeholders.RewriteNotIdempotent | compose_to_quadlet.py:288-291 | `${a:-$}{b:-d}` with a and b unknown rewrites to `${b:-d}`, which a second rewrite turns into `d` |
| Discovery.Suggest | compose_to_quadlet.py:94-106 | one of the seven well-known names gets its fixed value; any other name gets its lower-cased name in quotes |
| Discovery.SuggestUnknownIsLowerLiteral | compose_to_quadlet.py:106 | an unknown name is suggested as a quoted literal two characters longer than the name, with no upper-case ASCII letter |
| Discovery.ServiceRefs | compose_to_quadlet.py:67-83 | one service is scanned exactly when it is a mapping with a string image and iterable mounts; a non-mapping raises an AttributeError, any other failure is a TypeError |
| Discovery.Discover | compose_to_quadlet.py:65-83 | the scan of all services succeeds exactly when the scan of each service does |
| Discovery.Extend | compose_to_quadlet.py:86-88 | the new table holds the old names and the found names; old names keep their values; new names get their suggestions |
| Discovery.ExtendStep | compose_to_quadlet.py:86-88 | handling one more name leaves a known name alone and adds a new one with its suggestion |
| Discovery.MountRefsStep | compose_to_quadlet.py:73-76 | one more mount adds the names of a string mount and nothing for any other |
| Discovery.EnvironmentRefsStep | compose_to_quadlet.py:79-83 | one more environment entry adds the names of a string value and nothing for any other |
| Discovery.DiscoveredNamesWellFormed | compose_to_quadlet.py:63-83 | every discovered name is non-empty and free of `}` |
| Discovery.DiscoverSucceeds | compose_to_quadlet.py:67-76 | services that are mappings with a string image and iterable mounts are scanned without an exception |
| Discovery.DiscoveredServicesAreMappings | compose_to_quadlet.py:67-69 | discovery succeeds only when every service is a mapping |
| Discovery.DiscoverPrefixFails | compose_to_quadlet.py:67-83 | the exception of the first services is the exception of the whole loop |
| Volumes.ExternalDeclaration | compose_to_quadlet.py:56 | a volume is external only when it is a mapping with a truthy `external` entry; a mapping without that entry is not external |
| Volumes.Resolve | compose_to_quadlet.py:56-61 | an external volume resolves to its name; any other volume resolves to `${STACK_PATH}/` plus its name, which differs from the name |
| Volumes.ResolveAll | compose_to_quadlet.py:55-61 | the table stays well formed and holds exactly the old volumes and the declared ones |
| Volumes.ResolveAllDeclared | compose_to_quadlet.py:55-61 | every declared volume maps to its resolved path |
| Volumes.ResolveAllKeeps | compose_to_quadlet.py:55-61 | a volume known before and not declared again keeps its path |
| Volumes.ResolveAllOrder | compose_to_quadlet.py:55-61 | the volumes known before keep their order, at the front |
| Volumes.SubstituteFrom | compose_to_quadlet.py:302-305 | only the first volume name, in table order, that prefixes the mount as `name:` is replaced by its path, keeping the rest; with none the mount is unchanged |
| Volumes.SubstituteFromShape | compose_to_quadlet.py:302-305 | the loop leaves the mount unchanged or replaces the `name:` prefix of one of the names by that name's path |
| Volumes.SubstitutionShape | compose_to_quadlet.py:302-305 | over the volume table: the mount is unchanged when no volume name prefixes it as `name:`; in every case it is either unchanged or has one such prefix replaced by that volume's path |
| Volumes.SubstituteNamed | compose_to_quadlet.py:302-305 | with colon-free volume names, `name:target` becomes `path:target` for the declared name |
| Volumes.AddRelabel | compose_to_quadlet.py:310-314 | the mount is left alone, or gains `:z` when it has exactly one colon and ends in neither `:ro` nor `:z` |
| Volumes.SplitPair | compose_to_quadlet.py:312 | `source:target` with no other colon splits into its two parts |
| Volumes.RelabelTwoParts | compose_to_quadlet.py:310-314 | `source:target` gains `:z` exactly when the target is neither `ro` nor `z` and the source is under neither `/dev` nor `/etc` |
| Volumes.RelabelIdempotent | compose_to_quadlet.py:310-314 | `:z` is never added twice |
| Volumes.ConvertVolume | compose_to_quadlet.py:295-316 | converting a mount fails exactly when it is neither a mapping nor a string |
| Volumes.ManagedVolumeMount | compose_to_quadlet.py:295-316 | a managed volume mounted at an absolute path becomes `${STACK_PATH}/name:target:z` |
| Volumes.ManagedRelabel | compose_to_quadlet.py:310-314 | a substituted `${...}` source with an absolute target gains `:z` |
| Dependencies.DependencyList | compose_to_quadlet.py:113-121 | a service fails exactly when it is not a mapping |
| Dependencies.DependencyTable | compose_to_quadlet.py:110-123 | on success the table has exactly one entry per service name, and every service was a mapping |
| Dependencies.DependencyTableFails | compose_to_quadlet.py:112-113 | extraction fails exactly when some service is not a mapping |
| Dependencies.DependencyTableEntries | compose_to_quadlet.py:112-121 | each service maps to its keys of a mapping-form `depends_on`, its list-form `depends_on` unchanged, or `[]` |
| Dependencies.DependencyTablePrefixFails | compose_to_quadlet.py:112-113 | the exception of the first services is the exception of the whole loop |
| Container.PortText | compose_to_quadlet.py:186-194 | a string port with a ':' ends up bound to `127.0.0.1:` or `0.0.0.0:`, either as it was or with `127.0.0.1:` prefixed; any other port is printed as it is |
| Container.PortKeptIffBound | compose_to_quadlet.py:190-191 | a port with a ':' is left unchanged exactly when it starts with `127.0.0.1:` or `0.0.0.0:` |
| Container.PortTextStable | compose_to_quadlet.py:188-192 | rendering a rendered port changes nothing |
| Container.ImageSection | compose_to_quadlet.py:175-180 | a truthy image that is not a string raises a TypeError; a falsy one gives nothing; a string gives the single line `image = "<image with placeholders rewritten>";` |
| Container.PortSection | compose_to_quadlet.py:182-196 | falsy ports give nothing; truthy ports that are not iterable raise a TypeError; otherwise the section is the `publishPorts` header, one bound or verbatim item per port in order, and the closing line |
| Container.MountLines | compose_to_quadlet.py:201-205 | the mounts convert exactly when each one does |
| Container.MountLinesItems | compose_to_quadlet.py:202-204 | when they all convert, there is one quoted item per mount, in order |
| Container.VolumeSection | compose_to_quadlet.py:198-206 | falsy mounts give nothing; truthy mounts that are not iterable raise a TypeError; iterable ones convert exactly when each mount does, framed by the `volumes` header and the closing line |
| Container.EnvFileSection | compose_to_quadlet.py:208-211 | a truthy `env_file`, whatever it names, gives the single secret-file line; a falsy one gives nothing |
| Container.EnvText | compose_to_quadlet.py:219-223 | a string value has its placeholders rewritten; any other value is printed as it is |
| Container.EnvLinesNested | compose_to_quadlet.py:218-223 | every environment line is nested inside the `environments` set |
| Container.EnvironmentSection | compose_to_quadlet.py:213-224 | lines are emitted exactly when the environment is a non-empty mapping, and then they are the `environments` header, the entries' lines and the closing line |
| Container.MountLinesPrefixFails | compose_to_quadlet.py:202-204 | the exception of the first mounts is the exception of the whole loop |
| Container.HealthCommand | compose_to_quadlet.py:229-233 | the command fails exactly when the test is a list with a non-string element after the first; a test that is not a list is printed as it is |
| Container.HealthListCommand | compose_to_quadlet.py:231-232 | a list test `[CMD, a, b, ...]` runs `a b ...` |
| Container.HealthEmittedIff | compose_to_quadlet.py:227-233 | a `healthCmd` line is emitted exactly when the check is a non-empty mapping, not disabled, with a truthy test |
| Container.HealthSection | compose_to_quadlet.py:226-233 | a truthy check that is not a mapping raises an AttributeError; for a mapping it raises exactly when it is not disabled, its test is truthy and the test's command raises; the line emitted is the `healthCmd` of the command; at most one line |
| Container.RestartSection | compose_to_quadlet.py:247-254 | a section is emitted exactly when `restart` is truthy, and it is the `serviceConfig = {` line, the `Restart` line of the printed policy, and the closing line |
| Container.UnitSection | compose_to_quadlet.py:256-268 | no dependencies give no `unitConfig`; otherwise its `After` and `Requires` lists are the same, with one `<dep>.service` item per dependency, in order |
| Container.SettingsSucceedIff | compose_to_quadlet.py:172-245 | the `containerConfig` settings are produced exactly when the image, ports, volumes and healthcheck sections all are |
| Container.BlockSucceedsIff | compose_to_quadlet.py:166-273 | a service that is not a mapping raises an AttributeError; otherwise its block is produced exactly when its settings are |
| Container.SettingsNested | compose_to_quadlet.py:172-243 | every line of `containerConfig` is indented below the section headers |
| Container.BlockAlwaysNetworked | compose_to_quadlet.py:170-173 | a block opens with the service name and `containerConfig`, closes with `};` and an empty line, and always holds the network line and the label lines |
| Container.ServiceConfigIffRestart | compose_to_quadlet.py:247-254 | for a service name that does not start with a blank, `serviceConfig` appears in a block exactly when `restart` is truthy |
| Container.UnitConfigIffDependencies | compose_to_quadlet.py:256-268 | for a service name that does not start with a blank, `unitConfig` appears in a block exactly when the dependency list is non-empty |
| Document.ContainerBlocks | compose_to_quadlet.py:143-148 | the blocks succeed exactly when every service's block does, giving one block per service, in service order |
| Document.ContainerBlocksPrefixFails | compose_to_quadlet.py:143-148 | the exception of the first services is the exception of the whole loop |
| Document.LetLinesComplete | compose_to_quadlet.py:129-137 | every variable is bound to its value in the `let` part, which also sets the stack path |
| Document.ServiceBlocksOpen | compose_to_quadlet.py:145-147 | every service's block opens with the service's name |
| Document.NixConfigOutcome | compose_to_quadlet.py:125-164 | a list or mapping project name raises a TypeError, then services that are not a mapping raise an AttributeError; otherwise the module is produced exactly when every service's block is |
| Document.NixConfigFramed | compose_to_quadlet.py:151-162 | the module opens with the `virtualisation.quadlet = let` lines and closes with the two closing braces |
| Document.NixConfigComplete | compose_to_quadlet.py:125-164 | the module binds every variable, sets the stack path, declares the project's bridge network and opens a block for every service |
| ComposeToQuadlet.ProjectName | compose_to_quadlet.py:29-30 | a given name wins; without one, the document's `name` entry is used when there is one, and the directory name otherwise |
| ComposeToQuadlet.Converter.constructor | compose_to_quadlet.py:14-17 | a new converter starts with empty tables |
| ComposeToQuadlet.Converter.ProcessVolumes | compose_to_quadlet.py:53-61 | the volume table becomes `ResolveAll` of the declarations; declarations that are not a mapping raise and change nothing; variables are untouched |
| ComposeToQuadlet.Converter.MountNames | compose_to_quadlet.py:73-76 | the mount loop collects exactly the names of the string mounts |
| ComposeToQuadlet.Converter.EnvironmentNames | compose_to_quadlet.py:79-83 | the environment loop collects exactly the names of the string values |
| ComposeToQuadlet.Converter.CollectServiceNames | compose_to_quadlet.py:67-83 | one service contributes the names of its image, string mounts and string environment values, or raises as `ServiceRefs` does |
| ComposeToQuadlet.Converter.CollectNames | compose_to_quadlet.py:65-83 | the service loop collects the names `Discover` gives, or its first exception |
| ComposeToQuadlet.Converter.AddSuggestions | compose_to_quadlet.py:86-88 | whatever order the found names are visited in, the variable table becomes `Extend` of the old one, and the old names keep their order |
| ComposeToQuadlet.Converter.DefineVariable | compose_to_quadlet.py:87-88 | a new name is added with its suggestion; a known name is left alone |
| ComposeToQuadlet.Converter.ExtractVariables | compose_to_quadlet.py:63-88 | the variable table is extended with every discovered name; on an exception it is unchanged |
| ComposeToQuadlet.Converter.ExtractDependencies | compose_to_quadlet.py:108-123 | the result is the dependency table of the services, or the exception of the first service that is not a mapping |
| ComposeToQuadlet.Converter.RenderPorts | compose_to_quadlet.py:182-196 | the port loop emits `PortSection`: one bound or verbatim item per port, in order |
| ComposeToQuadlet.Converter.RenderVolumes | compose_to_quadlet.py:198-206 | the mount loop emits `VolumeSection`: one converted item per mount, in order, or the first exception |
| ComposeToQuadlet.Converter.RenderEnvironment | compose_to_quadlet.py:213-224 | the environment loop emits `EnvironmentSection`: one line per entry, string values rewritten |
| ComposeToQuadlet.Converter.RenderSettings | compose_to_quadlet.py:172-245 | the `containerConfig` lines are `ContainerSettings` of the current tables |
| ComposeToQuadlet.Converter.GenerateContainerConfig | compose_to_quadlet.py:166-273 | the block is `ContainerBlock` of the current tables, whose layout properties are proved above |
| ComposeToQuadlet.Converter.LetBindings | compose_to_quadlet.py:129-137 | the bindings are one line per variable in table order, then the stack path and the inherited networks |
| ComposeToQuadlet.Converter.GenerateContainers | compose_to_quadlet.py:143-148 | the container loop gives `ContainerBlocks`: one block per service, in order |
| ComposeToQuadlet.Converter.GenerateNixConfig | compose_to_quadlet.py:125-164 | the module is `NixConfig` of the current tables; a list or mapping project name raises a TypeError, and services that are not a mapping an AttributeError |
| ComposeToQuadlet.Converter.Convert | compose_to_quadlet.py:19-44 | an empty document raises a ValueError, a non-mapping one an AttributeError, both with the tables unchanged; otherwise the volumes are resolved, the variables extended, and the output is the module rendered from the new tables, with each failing stage's exception and the tables it leaves |

## Left out

- File I/O is not modelled: reading and parsing the YAML file, writing the output file, and taking the default project name from the file's directory (compose_to_quadlet.py:22-23, 30, 46-49). The document arrives parsed, and the directory name is a parameter of `Convert`.
- The command line (`main`, compose_to_quadlet.py:319-347) is process plumbing and is not modelled.
- `str()` of a list or a mapping, such as a long-form mount, a dependency or a port written as a mapping, is Python's repr. It is the opaque function `show` given to the converter.
- Python set iteration order in `_extract_variables` is unspecified. `AddSuggestions` visits the found names in an arbitrary order, so only the final names and values of the variable table are specified, not the order of new bindings.
- `self.networks` is written but never read. Only the TypeError of adding an unhashable project name is modelled.
- Floats, dates and non-string mapping keys from YAML are not part of `Value`. `str()` of an integer is modelled for integers only.
- Mappings are assumed to have distinct keys, as a parsed Python dict has. `Value` itself allows a repeated key: `Get` then finds the first binding and iteration visits the key twice, where `yaml.safe_load` would keep only the last value.
- `str.lower()` is modelled for ASCII letters only. Other Unicode case mappings are left out.
- The output is the list of its lines. The final `'\n'.join` into one string is not modelled.
- ComposeToQuadlet.Converter.Convert: the project name given by the caller is a string in which empty means absent, as `if not project_name` treats it. A name given as `None` is the empty string here.
