/** Volumes: the table `_process_volumes` fills from the top-level `volumes`
    section, and `_convert_volume`, which rewrites one mount of a service. */
module Volumes {
  import opened Outcomes
  import opened Text
  import opened ComposeValue
  import opened Tables
  import opened Placeholders

  /** Where a volume managed by the stack lives, below the stack directory. */
  const STACK_ROOT: string := "${STACK_PATH}/"

  /** A declaration is external when it is a mapping whose `external` entry is
      truthy. */
  predicate IsExternal(config: Value) {
    config.Dict? && Truthy(GetOr(config.entries, "external", Null))
  }

  /** Only a mapping with a truthy `external` entry is external, and a mapping
      without that entry is not. */
  lemma ExternalDeclaration(config: Value)
    ensures IsExternal(config) ==>
      && config.Dict?
      && exists i :: 0 <= i < |config.entries| && config.entries[i].0 == "external" && Truthy(config.entries[i].1)
    ensures config.Dict? && (forall i :: 0 <= i < |config.entries| ==> config.entries[i].0 != "external") ==>
      !IsExternal(config)
  {
  }

  /** The host path of a declared volume: an external one keeps its own name,
      any other lives below the stack directory. */
  function Resolve(name: string, config: Value): (r: string)
    ensures IsExternal(config) ==> r == name
    ensures !IsExternal(config) ==> r == STACK_ROOT + name && r != name
  {
    if IsExternal(config) then name else STACK_ROOT + name
  }

  /** The volume table after the loop of `_process_volumes` over the first
      declarations: each declaration in turn is stored under its name. */
  function ResolveAll(t: Table, decls: seq<(string, Value)>): (r: Table)
    requires Tables.Valid(t)
    ensures Tables.Valid(r)
    ensures forall k :: k in r.at <==> k in t.at || k in Keys(decls)
    decreases |decls|
  {
    if decls == [] then t
    else
      var init := decls[..|decls| - 1];
      var last := decls[|decls| - 1];
      assert Keys(decls) == Keys(init) + [last.0];
      Put(ResolveAll(t, init), last.0, Resolve(last.0, last.1))
  }

  /** After processing, every declared volume has its resolved path. */
  lemma {:induction false} ResolveAllDeclared(t: Table, decls: seq<(string, Value)>)
    requires Tables.Valid(t) && DistinctKeys(decls)
    ensures forall i :: 0 <= i < |decls| ==> ResolveAll(t, decls).at[decls[i].0] == Resolve(decls[i].0, decls[i].1)
    decreases |decls|
  {
    if decls != [] {
      var init := decls[..|decls| - 1];
      var last := decls[|decls| - 1];
      ResolveAllDeclared(t, init);
      ResolveAllStep(t, decls);
      var r := ResolveAll(t, decls).at;
      forall i | 0 <= i < |decls| ensures r[decls[i].0] == Resolve(decls[i].0, decls[i].1) {
        if i == |decls| - 1 {
          ResolveAllLast(t, decls);
        } else {
          assert decls[i] == init[i] && Keys(init)[i] == init[i].0;
        }
      }
    }
  }

  lemma ResolveAllLast(t: Table, decls: seq<(string, Value)>)
    requires Tables.Valid(t) && decls != []
    ensures var last := decls[|decls| - 1]; ResolveAll(t, decls).at[last.0] == Resolve(last.0, last.1)
  {
  }

  lemma ResolveAllStep(t: Table, decls: seq<(string, Value)>)
    requires Tables.Valid(t) && decls != []
    ensures var last := decls[|decls| - 1];
      ResolveAll(t, decls).at == ResolveAll(t, decls[..|decls| - 1]).at[last.0 := Resolve(last.0, last.1)]
  {
  }

  /** One more declaration stores its resolved path. */
  lemma ResolveAllNext(t: Table, decls: seq<(string, Value)>, i: nat)
    requires Tables.Valid(t) && i < |decls|
    ensures ResolveAll(t, decls[..i + 1]) == Put(ResolveAll(t, decls[..i]), decls[i].0, Resolve(decls[i].0, decls[i].1))
  {
    assert decls[..i + 1][..i] == decls[..i];
  }

  /** Every volume known before and not declared again keeps its path. */
  lemma {:induction false} ResolveAllKeeps(t: Table, decls: seq<(string, Value)>)
    requires Tables.Valid(t)
    ensures forall k :: k in t.at && k !in Keys(decls) ==> ResolveAll(t, decls).at[k] == t.at[k]
    decreases |decls|
  {
    if decls != [] {
      var init := decls[..|decls| - 1];
      ResolveAllKeeps(t, init);
      assert Keys(decls) == Keys(init) + [decls[|decls| - 1].0];
    }
  }

  /** Processing keeps the order of the volumes known before. */
  lemma {:induction false} ResolveAllOrder(t: Table, decls: seq<(string, Value)>)
    requires Tables.Valid(t)
    ensures t.order <= ResolveAll(t, decls).order
    decreases |decls|
  {
    if decls != [] {
      ResolveAllOrder(t, decls[..|decls| - 1]);
    }
  }

  /** The loop over the volume table in `_convert_volume`: the first name, in
      table order, that followed by ':' starts the mount has that prefix
      replaced by its path; without such a name the mount is unchanged. */
  function SubstituteFrom(names: seq<string>, at: map<string, string>, mount: string): (r: string)
    requires forall i :: 0 <= i < |names| ==> names[i] in at
    ensures (forall i :: 0 <= i < |names| ==> !StartsWith(mount, names[i] + ":")) ==> r == mount
    ensures forall i :: 0 <= i < |names| && StartsWith(mount, names[i] + ":")
                        && (forall j :: 0 <= j < i ==> !StartsWith(mount, names[j] + ":"))
                        ==> r == at[names[i]] + ":" + mount[|names[i]| + 1..]
    decreases |names|
  {
    if names == [] then mount
    else if StartsWith(mount, names[0] + ":") then at[names[0]] + ":" + mount[|names[0]| + 1..]
    else
      var r := SubstituteFrom(names[1..], at, mount);
      assert forall i :: 1 <= i < |names| ==> names[i] == names[1..][i - 1];
      r
  }

  /** Whatever the order, the loop leaves the mount unchanged or replaces the
      `name:` prefix of one of the names by that name's path. */
  lemma {:induction false} SubstituteFromShape(names: seq<string>, at: map<string, string>, mount: string)
    requires forall i :: 0 <= i < |names| ==> names[i] in at
    ensures var r := SubstituteFrom(names, at, mount);
      r == mount || exists i :: 0 <= i < |names| && StartsWith(mount, names[i] + ":")
                                && r == at[names[i]] + ":" + mount[|names[i]| + 1..]
    decreases |names|
  {
    if names != [] && !StartsWith(mount, names[0] + ":") {
      var tail := names[1..];
      SubstituteFromShape(tail, at, mount);
      var r := SubstituteFrom(tail, at, mount);
      assert SubstituteFrom(names, at, mount) == r;
      if r != mount {
        var i :| 0 <= i < |tail| && StartsWith(mount, tail[i] + ":") && r == at[tail[i]] + ":" + mount[|tail[i]| + 1..];
        assert tail[i] == names[i + 1];
      }
    } else if names != [] {
      assert StartsWith(mount, names[0] + ":");
    }
  }

  /** `_convert_volume`'s loop over the volume table. */
  function SubstituteVolume(t: Table, mount: string): string
    requires Tables.Valid(t)
  {
    SubstituteFrom(t.order, t.at, mount)
  }

  /** Substitution leaves a mount unchanged, or replaces one volume's `name:`
      prefix by the volume's path; with no volume name as its prefix, the
      mount is unchanged. */
  lemma SubstitutionShape(t: Table, mount: string)
    requires Tables.Valid(t)
    ensures (forall k :: k in t.at ==> !StartsWith(mount, k + ":")) ==> SubstituteVolume(t, mount) == mount
    ensures var r := SubstituteVolume(t, mount);
      r == mount || exists k :: k in t.at && StartsWith(mount, k + ":") && r == t.at[k] + ":" + mount[|k| + 1..]
  {
    SubstituteFromShape(t.order, t.at, mount);
  }

  /** The SELinux relabel rule of `_convert_volume`: `:z` is appended to a
      mount that has exactly one ':', does not already end in `:ro` or `:z`,
      and whose source is not under /dev or /etc. Either the mount is left
      alone, or it gains `:z` and then has exactly one ':' before it. */
  function AddRelabel(m: string): (r: string)
    ensures r == m || (r == m + ":z" && Count(m, ':') == 1 && !EndsWith(m, ":ro") && !EndsWith(m, ":z"))
  {
    if ':' in m && !EndsWith(m, ":ro") && !EndsWith(m, ":z") then
      var parts := Split(m, ':');
      if |parts| == 2 && !StartsWith(parts[0], "/dev") && !StartsWith(parts[0], "/etc") then m + ":z" else m
    else m
  }

  /** A mount ends in `:x` for a colon-free x exactly when its target is x. */
  lemma EndsWithTarget(src: string, dst: string, x: string)
    requires ':' !in src && ':' !in dst && ':' !in x
    ensures EndsWith(src + ":" + dst, ":" + x) <==> dst == x
  {
    var m := src + ":" + dst;
    if EndsWith(m, ":" + x) {
      var k := |m| - |x| - 1;
      assert m[k] == (":" + x)[0];
      if k == |src| {
        assert dst == m[k + 1..] == x;
      }
    }
  }

  /** `source:target` with no other ':' splits into its two parts. */
  lemma SplitPair(src: string, dst: string)
    requires ':' !in src && ':' !in dst
    ensures Split(src + ":" + dst, ':') == [src, dst]
  {
    assert src + ":" + dst == src + [':'] + dst;
    SplitWithout(dst, ':');
    SplitAtFirst(src, ':', dst);
  }

  /** `source:target` with no other ':' gets `:z` exactly when the target is
      neither `ro` nor `z` and the source is under neither /dev nor /etc. */
  lemma RelabelTwoParts(src: string, dst: string)
    requires ':' !in src && ':' !in dst
    ensures AddRelabel(src + ":" + dst)
         == if dst != "ro" && dst != "z" && !StartsWith(src, "/dev") && !StartsWith(src, "/etc")
            then src + ":" + dst + ":z" else src + ":" + dst
  {
    if dst != "ro" && dst != "z" {
      RelabelPlainTarget(src, dst);
    } else {
      RelabelModeTarget(src, dst);
    }
  }

  lemma RelabelPlainTarget(src: string, dst: string)
    requires ':' !in src && ':' !in dst && dst != "ro" && dst != "z"
    ensures AddRelabel(src + ":" + dst)
         == if !StartsWith(src, "/dev") && !StartsWith(src, "/etc") then src + ":" + dst + ":z" else src + ":" + dst
  {
    var m := src + ":" + dst;
    EndsWithTarget(src, dst, "ro");
    EndsWithTarget(src, dst, "z");
    assert m[|src|] == ':';
    SplitPair(src, dst);
    RelabelUnmarked(m, src, dst);
  }

  lemma RelabelModeTarget(src: string, dst: string)
    requires ':' !in src && (dst == "ro" || dst == "z")
    ensures AddRelabel(src + ":" + dst) == src + ":" + dst
  {
    EndsWithTarget(src, dst, dst);
    RelabelMarked(src + ":" + dst);
  }

  /** A mount with a mode suffix is left alone. */
  lemma RelabelMarked(m: string)
    requires EndsWith(m, ":ro") || EndsWith(m, ":z")
    ensures AddRelabel(m) == m
  {
  }

  /** A two-part mount without a mode suffix gains `:z` unless its source is
      under /dev or /etc. */
  lemma RelabelUnmarked(m: string, src: string, dst: string)
    requires ':' in m && !EndsWith(m, ":ro") && !EndsWith(m, ":z") && Split(m, ':') == [src, dst]
    ensures AddRelabel(m) == if !StartsWith(src, "/dev") && !StartsWith(src, "/etc") then m + ":z" else m
  {
  }

  /** A relabelled mount is not relabelled again. */
  lemma RelabelIdempotent(m: string)
    ensures AddRelabel(AddRelabel(m)) == AddRelabel(m)
  {
    if AddRelabel(m) != m {
      var r := m + ":z";
      assert r[|r| - 2..] == ":z";
    }
  }

  /** `_convert_volume` on one mount: a long-form mapping is printed as is;
      any other value that is not a string raises, an AttributeError when
      the volume table has a name to test it against and a TypeError from the
      rewriting otherwise; a string has its named volume substituted, its
      placeholders rewritten against the known variables, and the relabel
      rule applied. */
  function ConvertVolume(known: set<string>, vols: Table, mount: Value, show: Value -> string): (r: Result<string>)
    requires Tables.Valid(vols)
    ensures r.Err? <==> !(mount.Dict? || mount.Str?)
  {
    match mount
    case Dict(_) => Ok(show(mount))
    case Str(s) => Ok(AddRelabel(ReplaceEnvVars(known, SubstituteVolume(vols, s))))
    case _ => Err(if vols.order != [] then MissingAttribute else BadType)
  }

  /** A mount of a colon-free name starts with another colon-free name
      followed by ':' only when the two names are the same. */
  lemma PrefixNameUnique(name: string, target: string, k: string)
    requires ':' !in name && ':' !in k && StartsWith(name + ":" + target, k + ":")
    ensures k == name
  {
    var m := name + ":" + target;
    assert m[|k|] == (k + ":")[|k|];
    assert forall j :: 0 <= j < |name| ==> m[j] == name[j];
    assert forall j :: 0 <= j < |k| ==> m[j] == (k + ":")[j] == k[j];
    assert m[|name|] == ':';
    assert |k| == |name|;
    assert k == m[..|k|] == name;
  }

  /** A mount `name:target` of a declared colon-free volume name has the name
      replaced by the volume's path. */
  lemma SubstituteNamed(vols: Table, name: string, target: string)
    requires Tables.Valid(vols) && (forall k :: k in vols.at ==> ':' !in k)
    requires name in vols.at
    ensures SubstituteVolume(vols, name + ":" + target) == vols.at[name] + ":" + target
  {
    var mount := name + ":" + target;
    var i :| 0 <= i < |vols.order| && vols.order[i] == name;
    forall j | 0 <= j < |vols.order| && StartsWith(mount, vols.order[j] + ":")
      ensures j == i
    {
      PrefixNameUnique(name, target, vols.order[j]);
    }
    assert mount[|name| + 1..] == target;
  }

  /** The path of a managed volume is colon-free and has no default marker. */
  lemma ManagedPathShape(name: string, target: string)
    requires ':' !in name && ':' !in target && StartsWith(target, "/")
    ensures ':' !in STACK_ROOT + name && (STACK_ROOT + name)[0] == '$'
    ensures NoDefaultMarker(STACK_ROOT + name + ":" + target)
  {
    var m := STACK_ROOT + name + ":" + target;
    forall q | 0 <= q < |m| - 1 ensures !(m[q] == ':' && m[q + 1] == '-') {
      if m[q] == ':' {
        assert q == |STACK_ROOT + name|;
        assert m[q + 1] == target[0];
      }
    }
  }

  /** A mount `name:/path` of a volume the stack manages becomes
      `${STACK_PATH}/name:/path:z`: its name is replaced by the volume's path
      below the stack directory, and it is relabelled for SELinux. */
  lemma ManagedVolumeMount(known: set<string>, vols: Table, name: string, target: string, show: Value -> string)
    requires Tables.Valid(vols) && (forall k :: k in vols.at ==> ':' !in k)
    requires name in vols.at && vols.at[name] == STACK_ROOT + name
    requires ':' !in target && StartsWith(target, "/")
    ensures ConvertVolume(known, vols, Str(name + ":" + target), show)
         == Ok(STACK_ROOT + name + ":" + target + ":z")
  {
    var path := STACK_ROOT + name;
    SubstituteNamed(vols, name, target);
    ManagedPathShape(name, target);
    RewriteWithoutDefaults(known, path + ":" + target);
    ManagedRelabel(path, target);
  }

  lemma ManagedRelabel(path: string, target: string)
    requires ':' !in path && path != [] && path[0] == '$'
    requires ':' !in target && StartsWith(target, "/")
    ensures AddRelabel(path + ":" + target) == path + ":" + target + ":z"
  {
    assert target[0] == '/';
    RelabelPlainTarget(path, target);
    assert !StartsWith(path, "/dev") && !StartsWith(path, "/etc");
  }
}
