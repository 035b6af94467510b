/** A user's selection over a template, and the selection an update makes from the release in use. */
module RuntimeOverlay {
  import opened Domain
  import opened RuntimeSpec

  /** What a request may choose. The keys of the old per-volume sizes are never looked at. */
  datatype Selection = Selection(cpu: Option<real>, memory: Option<real>, dataVolume: Option<real>,
                                 volumeSizes: seq<real>,
                                 command: Option<seq<string>>, environment: Option<map<string, string>>,
                                 dependencies: Option<seq<Dependency>>)

  function NoSelection(): Selection {
    Selection(None, None, None, [], None, None, None)
  }

  function Larger(a: real, b: real): real {
    if b > a then b else a
  }

  // ---------------------------------------------------------------- selectedRuntimeSpec

  function MaxSize(start: real, sizes: seq<real>): (r: real)
    ensures r >= start && forall i :: 0 <= i < |sizes| ==> r >= sizes[i]
    ensures r == start || r in sizes
    decreases |sizes|
  {
    if sizes == [] then start else MaxSize(Larger(start, sizes[0]), sizes[1..])
  }

  function Resized(mounts: seq<Mount>, size: real): (r: seq<Mount>)
    ensures |r| == |mounts|
    ensures forall i :: 0 <= i < |r| ==> r[i] == if mounts[i].Mount? then mounts[i].(size := Some(size)) else mounts[i]
  {
    if mounts == [] then []
    else [if mounts[0].Mount? then mounts[0].(size := Some(size)) else mounts[0]] + Resized(mounts[1..], size)
  }

  function StringKeys(keys: seq<Option<string>>): (r: seq<string>)
    ensures forall key :: key in r <==> Some(key) in keys
  {
    if keys == [] then [] else
      var rest := StringKeys(keys[1..]);
      assert keys == [keys[0]] + keys[1..];
      if keys[0].Some? then [keys[0].value] + rest else rest
  }

  function EditableEnv(s: Spec): seq<string> {
    if s.envKeys.Given? then StringKeys(s.envKeys.value) else []
  }

  function MinimumVolume(s: Spec): real {
    if DataVolumeGiB(s).Ok? then DataVolumeGiB(s).value else 0.0
  }

  function WithSystemDisk(t: Spec): Spec {
    t.(systemDisk := Some(DEFAULT_SYSTEM_DISK))
  }

  /** The template with the chosen CPU, memory and the fixed system disk. */
  function WithCompute(t: Spec, minimum: Compute, sel: Selection): Spec {
    t.(cpu := Some(Or(sel.cpu, minimum.cpu)), memory := Some(Or(sel.memory, minimum.memory)),
       systemDisk := Some(DEFAULT_SYSTEM_DISK))
  }

  function WithVolume(s: Spec, size: real): Spec {
    if !EditableOption(s, "dataVolume", false) then s
    else if MountsOf(s) != [] then s.(volumes := Given(Resized(MountsOf(s), size)), dataVolume := Some(size))
    else s.(dataVolume := None)
  }

  function WithCommand(s: Spec, sel: Selection): Spec {
    if sel.command.None? then s else s.(command := Given(Somes(sel.command.value)))
  }

  /** The environment with the chosen values written over it. */
  function Written(env: map<string, Option<string>>, chosen: map<string, string>): (r: map<string, Option<string>>)
    ensures forall key :: key in r <==> key in env || key in chosen
    ensures forall key :: key in r ==> r[key] == if key in chosen then Some(chosen[key]) else env[key]
  {
    env + map key | key in chosen :: Some(chosen[key])
  }

  function WithEnvironment(s: Spec, sel: Selection): Spec {
    if sel.environment.None? then s else s.(env := Given(Written(EnvironmentOf(s), sel.environment.value)))
  }

  function WithDependencies(s: Spec, sel: Selection): Spec {
    if sel.dependencies.None? then s else s.(dependencies := Given(Somes(sel.dependencies.value)))
  }

  function ChosenVolume(t: Spec, sel: Selection): real {
    MaxSize(Or(sel.dataVolume, MinimumVolume(t)), sel.volumeSizes)
  }

  /** The selection asks for resources the template does not let it choose, or for too little of them. */
  predicate RefusesResources(t: Spec, sel: Selection) {
    || RuntimeResources(t, true).Error?
    || (sel.cpu.Some? && !EditableOption(t, "cpu", true))
    || (sel.memory.Some? && !EditableOption(t, "memory", true))
    || Or(sel.cpu, Or(t.cpu, DEFAULT_CPU)) < Or(t.cpu, DEFAULT_CPU)
    || Or(sel.memory, Or(t.memory, DEFAULT_MEMORY)) < Or(t.memory, DEFAULT_MEMORY)
    || ((sel.dataVolume.Some? || sel.volumeSizes != []) && !EditableOption(t, "dataVolume", false))
    || ChosenVolume(WithSystemDisk(t), sel) < MinimumVolume(WithSystemDisk(t))
  }

  /** It sets a command, a variable or dependencies that the template fixes. */
  predicate RefusesSettings(t: Spec, sel: Selection) {
    || (sel.command.Some? && !EditableOption(t, "command", false))
    || (sel.environment.Some? && (!EditableOption(t, "environment", false)
                                  || exists key :: key in sel.environment.value && key !in EditableEnv(t)))
    || (sel.dependencies.Some? && !EditableOption(t, "dependencies", false))
  }

  predicate Refuses(t: Spec, sel: Selection) {
    RefusesResources(t, sel) || RefusesSettings(t, sel)
  }

  function WithResources(t: Spec, sel: Selection): Spec {
    var sized := WithCompute(t, Compute(Or(t.cpu, DEFAULT_CPU), Or(t.memory, DEFAULT_MEMORY)), sel);
    WithVolume(sized, ChosenVolume(sized, sel))
  }

  function WithSettings(s: Spec, sel: Selection): Spec {
    WithDependencies(WithEnvironment(WithCommand(s, sel), sel), sel)
  }

  function Overlaid(t: Spec, sel: Selection): Spec {
    WithSettings(WithResources(t, sel), sel)
  }

  ghost function SelectedSpec(t: Spec, sel: Selection): Outcome<Spec> {
    if Refuses(t, sel) || !Valid(Overlaid(t, sel)) then Error else Ok(Overlaid(t, sel))
  }

  // ---------------------------------------------------------------- runtimeSpecForUpdate

  /** An editable number left open keeps its present value, raised to the template's. */
  function Kept(open: bool, chosen: Option<real>, current: Outcome<real>, minimum: real): Option<real> {
    if open && chosen.None? && current.Ok? then Some(Larger(current.value, minimum)) else chosen
  }

  function CurrentCpu(s: Spec): Outcome<real> {
    if RuntimeResources(s, false).Ok? then Ok(RuntimeResources(s, false).value.cpu) else Error
  }

  function CurrentMemory(s: Spec): Outcome<real> {
    if RuntimeResources(s, false).Ok? then Ok(RuntimeResources(s, false).value.memory) else Error
  }

  predicate HasText(env: map<string, Option<string>>, key: string) {
    key in env && env[key].Some?
  }

  /** The value of each key in the release in use, or else in the template. */
  function Inherited(keys: seq<string>, present: map<string, Option<string>>,
                     declared: map<string, Option<string>>): map<string, string> {
    map key | key in keys && (HasText(present, key) || HasText(declared, key)) ::
      if HasText(present, key) then present[key].value else declared[key].value
  }

  function MergedEnvironment(t: Spec, current: Spec, sel: Selection): map<string, string> {
    Inherited(EditableEnv(t), EnvironmentOf(current), EnvironmentOf(t)) + EnvOr(sel.environment)
  }

  function EnvOr(env: Option<map<string, string>>): map<string, string> {
    if env.Some? then env.value else map[]
  }

  predicate UpdateRefuses(t: Spec, current: Spec, sel: Selection) {
    || RuntimeResources(t, true).Error? || DataVolumeGiB(current).Error? || DataVolumeGiB(t).Error?
    || (DataVolumeGiB(current).value > 0.0 && VolumeMounts(MountsOf(t)) == [])
    || (DataVolumeGiB(current).value > DataVolumeGiB(t).value && !EditableOption(t, "dataVolume", true))
    || (VolumeMounts(MountsOf(t)) == [] && (sel.dataVolume.Some? || sel.volumeSizes != []))
    || (VolumeMounts(MountsOf(t)) != [] && EditableOption(t, "dataVolume", true) && sel.dataVolume.Some?
        && DataVolumeGiB(current).value > 0.0 && sel.dataVolume.value < DataVolumeGiB(current).value)
    || (EditableOption(t, "command", false) && sel.command.None? && RuntimeCommand(current).Error?)
    || (EditableOption(t, "dependencies", false) && sel.dependencies.None? && RuntimeDependencies(current).Error?)
  }

  function KeptVolume(t: Spec, current: Spec, sel: Selection): Option<real>
    requires !UpdateRefuses(t, current, sel)
  {
    var value := Larger(DataVolumeGiB(current).value, DataVolumeGiB(t).value);
    if VolumeMounts(MountsOf(t)) != [] && EditableOption(t, "dataVolume", true) && sel.dataVolume.None? && value > 0.0
    then Some(value) else sel.dataVolume
  }

  /** The selection with every editable member the request left open taken from the release in use. */
  function Completed(t: Spec, current: Spec, sel: Selection): Selection
    requires !UpdateRefuses(t, current, sel)
  {
    sel.(cpu := Kept(EditableOption(t, "cpu", true), sel.cpu, CurrentCpu(current), Or(t.cpu, DEFAULT_CPU)),
         memory := Kept(EditableOption(t, "memory", true), sel.memory, CurrentMemory(current),
                        Or(t.memory, DEFAULT_MEMORY)),
         dataVolume := KeptVolume(t, current, sel),
         command := if EditableOption(t, "command", false) && sel.command.None?
                    then RuntimeCommand(current).value else sel.command,
         environment := if EditableEnv(t) != [] && EditableOption(t, "environment", false)
                        then Some(MergedEnvironment(t, current, sel)) else sel.environment,
         dependencies := if EditableOption(t, "dependencies", false) && sel.dependencies.None?
                         then RuntimeDependencies(current).value else sel.dependencies)
  }

  ghost function SpecForUpdate(t: Spec, current: Spec, requested: Option<Selection>): Outcome<Spec> {
    var sel := if requested.Some? then requested.value else NoSelection();
    if UpdateRefuses(t, current, sel) then Error else SelectedSpec(t, Completed(t, current, sel))
  }
}
