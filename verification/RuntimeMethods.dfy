/** The specification functions that work step by step, proved against what they compute. */
module RuntimeMethods {
  import opened Domain
  import opened RuntimeSpec
  import opened RuntimeOverlay

  // ---------------------------------------------------------------- validation

  function EntrySize(env: map<string, Option<string>>, key: string): nat
    requires key in env
  {
    |key| + if env[key].Some? then |env[key].value| else 0
  }

  /** The total does not depend on the order in which the variables are visited. */
  lemma {:induction false} SizeWithout(env: map<string, Option<string>>, key: string)
    requires key in env
    ensures EnvironmentSize(env) == EntrySize(env, key) + EnvironmentSize(env - {key})
    decreases |env|
  {
    var first :| first in env && EnvironmentSize(env) == EntrySize(env, first) + EnvironmentSize(env - {first});
    if first != key {
      SizeWithout(env - {first}, key);
      SizeWithout(env - {key}, first);
      assert (env - {first}) - {key} == (env - {key}) - {first};
      assert EntrySize(env - {first}, key) == EntrySize(env, key);
      assert EntrySize(env - {key}, first) == EntrySize(env, first);
    }
  }

  /** The loop over the variables, with the running total. */
  method CheckEnvironment(env: map<string, Option<string>>) returns (ok: bool)
    ensures ok == GoodEnvironment(env)
  {
    if |env| > 128 { return false; }
    var total := 0;
    var rest := env;
    while rest != map[]
      invariant rest.Keys <= env.Keys && forall key :: key in rest ==> rest[key] == env[key]
      invariant forall key :: key in env && key !in rest ==>
        EnvironmentKey(key) && env[key].Some? && |env[key].value| <= 4096
      invariant total + EnvironmentSize(rest) == EnvironmentSize(env)
      decreases |rest|
    {
      var key :| key in rest;
      SizeWithout(rest, key);
      if !EnvironmentKey(key) || env[key].None? || |env[key].value| > 4096 { return false; }
      total := total + |key| + |env[key].value|;
      rest := rest - {key};
    }
    return total <= 32768;
  }

  /** The loop over the mounts, with the names and paths seen so far. */
  method CheckMounts(mounts: seq<Mount>) returns (ok: bool)
    ensures ok == GoodMounts(mounts)
  {
    var seenKeys: set<string> := {};
    var seenPaths: set<string> := {};
    var k := 0;
    while k < |mounts|
      invariant 0 <= k <= |mounts| && GoodMounts(mounts[..k])
      invariant forall name :: name in seenKeys <==>
        exists i :: 0 <= i < k && mounts[i].Mount? && mounts[i].name == name
      invariant forall path :: path in seenPaths <==>
        exists i :: 0 <= i < k && mounts[i].Mount? && mounts[i].path == path
    {
      var m := mounts[k];
      if m.NotAMount? || !ResourceKey(m.name) || !GoodPath(m.path) { return false; }
      if m.name in seenKeys || m.path in seenPaths { return false; }
      seenKeys, seenPaths := seenKeys + {m.name}, seenPaths + {m.path};
      assert mounts[..k + 1] == mounts[..k] + [m];
      k := k + 1;
    }
    assert mounts[..k] == mounts;
    return true;
  }

  method ValidateRuntimeSpec(s: Spec) returns (ok: bool)
    ensures ok == Valid(s)
  {
    if RuntimeResources(s, true).Error? || !s.others { return false; }
    var storage := ComputeStorage(s, true);
    if storage.Error? || s.options.Wrong? { return false; }
    if s.options.Given? && exists key :: key in s.options.value && (key !in OPTION_KEYS || s.options.value[key].None?) {
      return false;
    }
    if RuntimeCommand(s).Error? || s.env.Wrong? { return false; }
    var environment := CheckEnvironment(EnvironmentOf(s));
    if !environment || s.envKeys.Wrong? { return false; }
    if s.envKeys.Given? && !GoodEnvKeys(s.envKeys.value, EnvironmentOf(s)) { return false; }
    if exists key :: key in EnvironmentOf(s) && key in s.secretKeys { return false; }
    if s.volumes.Wrong? { return false; }
    var mounts := CheckMounts(MountsOf(s));
    return mounts && RuntimeDependencies(s).Ok?;
  }

  // ---------------------------------------------------------------- the overlay

  method LargestSize(start: real, sizes: seq<real>) returns (chosen: real)
    ensures chosen == MaxSize(start, sizes)
  {
    chosen := start;
    var k := 0;
    while k < |sizes|
      invariant 0 <= k <= |sizes|
      invariant MaxSize(chosen, sizes[k..]) == MaxSize(start, sizes)
    {
      assert sizes[k..][1..] == sizes[k + 1..];
      if sizes[k] > chosen { chosen := sizes[k]; }
      k := k + 1;
    }
  }

  /** The resource step leaves what the settings depend on as it was. */
  lemma SettingsIgnoreResources(t: Spec, sel: Selection)
    ensures RefusesSettings(WithResources(t, sel), sel) == RefusesSettings(t, sel)
  {
    assert WithResources(t, sel).options == t.options && WithResources(t, sel).envKeys == t.envKeys;
  }

  /** The first half of selectedRuntimeSpec, which edits a copy of the template in place. */
  method SelectResources(t: Spec, sel: Selection) returns (r: Outcome<Spec>)
    ensures r == if RefusesResources(t, sel) then Error else Ok(WithResources(t, sel))
  {
    var minimum := RuntimeResources(t, true);
    if minimum.Error? { return Error; }
    var cpu, memory := minimum.value.cpu, minimum.value.memory;
    if sel.cpu.Some? && !EditableOption(t, "cpu", true) { return Error; }
    if sel.cpu.Some? { cpu := sel.cpu.value; }
    if sel.memory.Some? && !EditableOption(t, "memory", true) { return Error; }
    if sel.memory.Some? { memory := sel.memory.value; }
    if cpu < minimum.value.cpu || memory < minimum.value.memory { return Error; }
    var result := t.(cpu := Some(cpu), memory := Some(memory), systemDisk := Some(DEFAULT_SYSTEM_DISK));
    var minimumVolume := MinimumVolume(result);
    var editable := EditableOption(result, "dataVolume", false);
    var chosen := minimumVolume;
    if sel.dataVolume.Some? {
      if !editable { return Error; }
      chosen := sel.dataVolume.value;
    }
    if sel.volumeSizes != [] && !editable { return Error; }
    chosen := LargestSize(chosen, sel.volumeSizes);
    if chosen < minimumVolume { return Error; }
    return Ok(WithVolume(result, chosen));
  }

  /** The second half: command, environment and dependencies. */
  method SelectSettings(s: Spec, sel: Selection) returns (r: Outcome<Spec>)
    ensures r == if RefusesSettings(s, sel) then Error else Ok(WithSettings(s, sel))
  {
    var result := s;
    if sel.command.Some? {
      if !EditableOption(result, "command", false) { return Error; }
      result := result.(command := Given(Somes(sel.command.value)));
    }
    if sel.environment.Some? {
      if !EditableOption(result, "environment", false) { return Error; }
      if exists key :: key in sel.environment.value && key !in EditableEnv(result) { return Error; }
      result := result.(env := Given(Written(EnvironmentOf(result), sel.environment.value)));
    }
    if sel.dependencies.Some? {
      if !EditableOption(result, "dependencies", false) { return Error; }
      result := result.(dependencies := Given(Somes(sel.dependencies.value)));
    }
    return Ok(result);
  }

  method SelectRuntimeSpec(t: Spec, sel: Selection) returns (r: Outcome<Spec>)
    ensures r == SelectedSpec(t, sel)
  {
    r := SelectResources(t, sel);
    if r.Error? { return; }
    r := SelectSettings(r.value, sel);
    SettingsIgnoreResources(t, sel);
    if r.Error? { return; }
    var valid := ValidateRuntimeSpec(r.value);
    if !valid { r := Error; }
  }

  /** The loop that takes the editable variables from the release in use, then the requested ones. */
  method MergeEnvironment(t: Spec, current: Spec, sel: Selection) returns (merged: map<string, string>)
    ensures merged == MergedEnvironment(t, current, sel)
  {
    var keys, present, declared := EditableEnv(t), EnvironmentOf(current), EnvironmentOf(t);
    merged := map[];
    var k := 0;
    while k < |keys|
      invariant 0 <= k <= |keys|
      invariant merged == Inherited(keys[..k], present, declared)
    {
      InheritedStep(keys, k, present, declared);
      if HasText(present, keys[k]) {
        merged := merged[keys[k] := present[keys[k]].value];
      } else if HasText(declared, keys[k]) {
        merged := merged[keys[k] := declared[keys[k]].value];
      }
      k := k + 1;
    }
    assert keys[..k] == keys;
    merged := merged + EnvOr(sel.environment);
  }

  lemma InheritedStep(keys: seq<string>, k: nat, present: map<string, Option<string>>,
                      declared: map<string, Option<string>>)
    requires k < |keys|
    ensures var key, before := keys[k], Inherited(keys[..k], present, declared);
      Inherited(keys[..k + 1], present, declared)
      == if HasText(present, key) then before[key := present[key].value]
         else if HasText(declared, key) then before[key := declared[key].value] else before
  {
    assert keys[..k + 1] == keys[..k] + [keys[k]];
  }

  method KeepVolume(t: Spec, current: Spec, requested: Selection) returns (volume: Option<real>)
    requires !UpdateRefuses(t, current, requested)
    ensures volume == KeptVolume(t, current, requested)
  {
    volume := requested.dataVolume;
    if VolumeMounts(MountsOf(t)) != [] && EditableOption(t, "dataVolume", true) && volume.None? {
      var value := Larger(DataVolumeGiB(current).value, DataVolumeGiB(t).value);
      if value > 0.0 { volume := Some(value); }
    }
  }

  method FillSelection(t: Spec, current: Spec, requested: Selection) returns (filled: Selection)
    requires !UpdateRefuses(t, current, requested)
    ensures filled == Completed(t, current, requested)
  {
    filled := requested;
    var minimum := RuntimeResources(t, true).value;
    var resources := RuntimeResources(current, false);
    if EditableOption(t, "cpu", true) && filled.cpu.None? && resources.Ok? {
      filled := filled.(cpu := Some(Larger(resources.value.cpu, minimum.cpu)));
    }
    if EditableOption(t, "memory", true) && filled.memory.None? && resources.Ok? {
      filled := filled.(memory := Some(Larger(resources.value.memory, minimum.memory)));
    }
    var volume := KeepVolume(t, current, requested);
    filled := filled.(dataVolume := volume);
    if EditableOption(t, "command", false) && filled.command.None? {
      filled := filled.(command := RuntimeCommand(current).value);
    }
    if EditableEnv(t) != [] && EditableOption(t, "environment", false) {
      var merged := MergeEnvironment(t, current, requested);
      filled := filled.(environment := Some(merged));
    }
    if EditableOption(t, "dependencies", false) && filled.dependencies.None? {
      filled := filled.(dependencies := RuntimeDependencies(current).value);
    }
  }

  method RuntimeSpecForUpdate(t: Spec, current: Spec, requested: Option<Selection>) returns (r: Outcome<Spec>)
    ensures r == SpecForUpdate(t, current, requested)
  {
    var selection := NoSelection();
    if requested.Some? { selection := requested.value; }
    if UpdateRefuses(t, current, selection) { return Error; }
    selection := FillSelection(t, current, selection);
    r := SelectRuntimeSpec(t, selection);
  }
}
