/** What was asked for is what an application gets, and what was not asked for stays. */
module RuntimeRequests {
  import opened Domain
  import opened RuntimeSpec
  import opened RuntimeOverlay
  import opened RuntimeTheorems
  import opened RuntimeIdentity

  // ---------------------------------------------------------------- what may be asked for

  predicate AtLeast(chosen: Option<real>, minimum: real) {
    chosen.Some? ==> chosen.value >= minimum
  }

  /** The template lets the user choose each member that is chosen, and no resource is below its minimum. */
  predicate Within(t: Spec, sel: Selection) {
    && RuntimeResources(t, true).Ok?
    && (sel.cpu.Some? ==> EditableOption(t, "cpu", true)) && AtLeast(sel.cpu, Or(t.cpu, DEFAULT_CPU))
    && (sel.memory.Some? ==> EditableOption(t, "memory", true)) && AtLeast(sel.memory, Or(t.memory, DEFAULT_MEMORY))
    && (sel.dataVolume.Some? || sel.volumeSizes != [] ==> EditableOption(t, "dataVolume", false))
    && (AtLeast(sel.dataVolume, MinimumVolume(WithSystemDisk(t)))
        || exists i :: 0 <= i < |sel.volumeSizes| && sel.volumeSizes[i] >= MinimumVolume(WithSystemDisk(t)))
    && (sel.command.Some? ==> EditableOption(t, "command", false))
    && (sel.dependencies.Some? ==> EditableOption(t, "dependencies", false))
    && (sel.environment.Some? ==>
          && EditableOption(t, "environment", false)
          && forall key :: key in sel.environment.value ==> key in EditableEnv(t))
  }

  lemma RefusedIffNotWithin(t: Spec, sel: Selection)
    ensures Refuses(t, sel) <==> !Within(t, sel)
  {
    var minimum := MinimumVolume(WithSystemDisk(t));
    var chosen := ChosenVolume(WithSystemDisk(t), sel);
    assert chosen < minimum <==>
      !AtLeast(sel.dataVolume, minimum) && forall i :: 0 <= i < |sel.volumeSizes| ==> sel.volumeSizes[i] < minimum;
  }

  predicate Named(m: Mount) {
    m.Mount? && m.name != "" && m.path != ""
  }

  predicate HasNamedMount(t: Spec) {
    exists i :: 0 <= i < |MountsOf(t)| && Named(MountsOf(t)[i])
  }

  lemma {:induction false} NamedMounts(mounts: seq<Mount>)
    ensures VolumeMounts(mounts) != [] <==>
      exists i :: 0 <= i < |mounts| && Named(mounts[i])
  {
    if mounts != [] {
      NamedMounts(mounts[1..]);
      assert forall i :: 1 <= i < |mounts| ==> mounts[i] == mounts[1..][i - 1];
      if VolumeMounts(mounts[1..]) != [] {
        var i :| 0 <= i < |mounts[1..]| && Named(mounts[1..][i]);
        assert mounts[i + 1] == mounts[1..][i];
      }
    }
  }

  /** An update of a running application can be made at all exactly when the template and the volumes can be
      read, data in use has somewhere to go and room to stay, no size is asked for without a mount or below the
      one in use, and the command and dependencies in use can be read where they are to be kept. */
  lemma UpdateAllowedIff(t: Spec, current: Spec, sel: Selection)
    ensures !UpdateRefuses(t, current, sel) <==>
      && RuntimeResources(t, true).Ok? && DataVolumeGiB(current).Ok? && DataVolumeGiB(t).Ok?
      && var inUse := DataVolumeGiB(current).value;
      && (inUse > 0.0 ==> HasNamedMount(t))
      && (inUse <= DataVolumeGiB(t).value || EditableOption(t, "dataVolume", true))
      && (sel.dataVolume.Some? || sel.volumeSizes != [] ==> HasNamedMount(t))
      && (EditableOption(t, "dataVolume", true) && inUse > 0.0 ==> AtLeast(sel.dataVolume, inUse))
      && (EditableOption(t, "command", false) ==> sel.command.Some? || RuntimeCommand(current).Ok?)
      && (EditableOption(t, "dependencies", false) ==> sel.dependencies.Some? || RuntimeDependencies(current).Ok?)
  {
    NamedMounts(MountsOf(t));
  }

  // ---------------------------------------------------------------- one member at a time

  /** The number that results for a resource: the one asked for, else the one in use raised to the template's,
      else the template's. */
  predicate ResourceIs(result: Option<real>, asked: Option<real>, inUse: Option<real>, minimum: real) {
    if asked.Some? then result == asked
    else if inUse.Some? then result.Some? && result.value >= inUse.value && result.value >= minimum
                             && (result == inUse || result == Some(minimum))
    else result == Some(minimum)
  }

  /** The CPU of a release in use that may be edited. */
  function CpuInUse(t: Spec, current: Spec): Option<real> {
    if EditableOption(t, "cpu", true) && RuntimeResources(current, false).Ok?
    then Some(Or(current.cpu, DEFAULT_CPU)) else None
  }

  function MemoryInUse(t: Spec, current: Spec): Option<real> {
    if EditableOption(t, "memory", true) && RuntimeResources(current, false).Ok?
    then Some(Or(current.memory, DEFAULT_MEMORY)) else None
  }

  lemma UpdatedResources(t: Spec, current: Spec, sel: Selection)
    requires !UpdateRefuses(t, current, sel)
    ensures var r := Overlaid(t, Completed(t, current, sel));
      && ResourceIs(r.cpu, sel.cpu, CpuInUse(t, current), Or(t.cpu, DEFAULT_CPU))
      && ResourceIs(r.memory, sel.memory, MemoryInUse(t, current), Or(t.memory, DEFAULT_MEMORY))
  {
    OverlaidMembers(t, Completed(t, current, sel));
  }

  /** Whether the user asks for this value of a variable. */
  predicate Asks(sel: Selection, key: string) {
    sel.environment.Some? && key in sel.environment.value
  }

  /** The value that results for a variable. */
  predicate VariableIs(t: Spec, current: Spec, sel: Selection, r: Spec, key: string) {
    var env := EnvironmentOf(r);
    if Asks(sel, key) then key in env && env[key] == Some(sel.environment.value[key])
    else if EnvironmentOpen(t) && key in EditableEnv(t) && HasText(EnvironmentOf(current), key)
    then key in env && env[key] == EnvironmentOf(current)[key]
    else if key in EnvironmentOf(t) then key in env && env[key] == EnvironmentOf(t)[key]
    else key !in env
  }

  lemma MergedValue(t: Spec, current: Spec, sel: Selection, key: string)
    ensures var merged := MergedEnvironment(t, current, sel);
      if Asks(sel, key) then key in merged && merged[key] == sel.environment.value[key]
      else if key in EditableEnv(t) && HasText(EnvironmentOf(current), key)
      then key in merged && Some(merged[key]) == EnvironmentOf(current)[key]
      else if key in EditableEnv(t) && HasText(EnvironmentOf(t), key)
      then key in merged && Some(merged[key]) == EnvironmentOf(t)[key]
      else key !in merged
  {
  }

  lemma UpdatedVariable(t: Spec, current: Spec, sel: Selection, key: string)
    requires !UpdateRefuses(t, current, sel)
    ensures VariableIs(t, current, sel, Overlaid(t, Completed(t, current, sel)), key)
  {
    var full := Completed(t, current, sel);
    OverlaidMembers(t, full);
    MergedValue(t, current, sel, key);
  }

  /** A command of no arguments is none. */
  predicate CommandIs(t: Spec, current: Spec, sel: Selection, r: Spec) {
    if sel.command.Some? then RuntimeCommand(r) == Ok(if sel.command.value == [] then None else sel.command)
    else if EditableOption(t, "command", false) && RuntimeCommand(current) != Ok(None)
    then RuntimeCommand(r) == RuntimeCommand(current)
    else RuntimeCommand(r) == RuntimeCommand(t)
  }

  lemma {:induction false} SomesInjective<T>(xs: seq<T>, ys: seq<T>)
    requires Somes(xs) == Somes(ys)
    ensures xs == ys
  {
    forall i | 0 <= i < |xs| ensures xs[i] == ys[i] {
      assert Somes(xs)[i] == Some(xs[i]) && Somes(ys)[i] == Some(ys[i]);
    }
  }

  lemma GivenCommand(s: Spec, args: seq<string>)
    requires s.command == Given(Somes(args)) && RuntimeCommand(s).Ok?
    ensures RuntimeCommand(s) == Ok(if args == [] then None else Some(args))
  {
    if args != [] { SomesInjective(args, Values(Somes(args))); }
  }

  lemma UpdatedCommand(t: Spec, current: Spec, sel: Selection)
    requires !UpdateRefuses(t, current, sel) && RuntimeCommand(Overlaid(t, Completed(t, current, sel))).Ok?
    ensures CommandIs(t, current, sel, Overlaid(t, Completed(t, current, sel)))
  {
    var full := Completed(t, current, sel);
    var r := Overlaid(t, full);
    OverlaidMembers(t, full);
    if full.command.Some? { GivenCommand(r, full.command.value); } else { SameField(r, t); }
  }

  predicate DependenciesAre(t: Spec, current: Spec, sel: Selection, r: Spec) {
    if sel.dependencies.Some? then RuntimeDependencies(r) == Ok(sel.dependencies)
    else if EditableOption(t, "dependencies", false) && RuntimeDependencies(current) != Ok(None)
    then RuntimeDependencies(r) == RuntimeDependencies(current)
    else RuntimeDependencies(r) == RuntimeDependencies(t)
  }

  lemma GivenDependencies(s: Spec, ds: seq<Dependency>)
    requires s.dependencies == Given(Somes(ds)) && RuntimeDependencies(s).Ok?
    ensures RuntimeDependencies(s) == Ok(Some(ds))
  {
    SomesInjective(ds, Values(Somes(ds)));
  }

  lemma UpdatedDependencies(t: Spec, current: Spec, sel: Selection)
    requires !UpdateRefuses(t, current, sel) && RuntimeDependencies(Overlaid(t, Completed(t, current, sel))).Ok?
    ensures DependenciesAre(t, current, sel, Overlaid(t, Completed(t, current, sel)))
  {
    var full := Completed(t, current, sel);
    var r := Overlaid(t, full);
    OverlaidMembers(t, full);
    if full.dependencies.Some? { GivenDependencies(r, full.dependencies.value); }
  }

  // ---------------------------------------------------------------- the whole update

  /** Everything a user may edit is what was asked for, else what is in use, else the template's, and
      everything else is the template's. */
  ghost predicate TakesRequest(t: Spec, current: Spec, sel: Selection, r: Spec) {
    && ResourceIs(r.cpu, sel.cpu, CpuInUse(t, current), Or(t.cpu, DEFAULT_CPU))
    && ResourceIs(r.memory, sel.memory, MemoryInUse(t, current), Or(t.memory, DEFAULT_MEMORY))
    && (forall key :: VariableIs(t, current, sel, r, key))
    && CommandIs(t, current, sel, r) && DependenciesAre(t, current, sel, r)
    && r.options == t.options && r.envKeys == t.envKeys && r.secretKeys == t.secretKeys && r.others == t.others
    && r.systemDisk == Some(DEFAULT_SYSTEM_DISK)
  }

  lemma UpdateTakesRequest(t: Spec, current: Spec, sel: Selection)
    requires SpecForUpdate(t, current, Some(sel)).Ok?
    ensures TakesRequest(t, current, sel, SpecForUpdate(t, current, Some(sel)).value)
  {
    var full := Completed(t, current, sel);
    UpdatedResources(t, current, sel);
    forall key ensures VariableIs(t, current, sel, Overlaid(t, full), key) { UpdatedVariable(t, current, sel, key); }
    UpdatedCommand(t, current, sel);
    UpdatedDependencies(t, current, sel);
    OverlaidMembers(t, full);
    OverlaidStorage(t, full);
  }

  /** The capacity that results: every size asked for is granted, and nothing beyond them but the capacity in
      use and the template's. */
  predicate CapacityIs(sel: Selection, kept: real, result: real) {
    && AtMost(sel.dataVolume, result)
    && (forall i :: 0 <= i < |sel.volumeSizes| ==> sel.volumeSizes[i] <= result)
    && (sel.dataVolume.None? ==> kept <= result)
    && (|| (sel.dataVolume == Some(result)) || result in sel.volumeSizes
        || (sel.dataVolume.None? && result == kept))
  }

  predicate AtMost(chosen: Option<real>, result: real) {
    chosen.Some? ==> chosen.value <= result
  }

  lemma ResizedNames(mounts: seq<Mount>, size: real)
    requires GoodMounts(Resized(mounts, size))
    ensures GoodMounts(mounts)
  {
    var r := Resized(mounts, size);
    forall i | 0 <= i < |mounts| ensures mounts[i].Mount? && ResourceKey(mounts[i].name) && GoodPath(mounts[i].path) {
      assert r[i].Mount? && ResourceKey(r[i].name) && GoodPath(r[i].path);
    }
    forall i, j | 0 <= i < j < |mounts| ensures mounts[i].name != mounts[j].name && mounts[i].path != mounts[j].path {
      assert r[i].name != r[j].name && r[i].path != r[j].path;
    }
  }

  lemma UpdateTakesCapacity(t: Spec, current: Spec, sel: Selection)
    requires SpecForUpdate(t, current, Some(sel)).Ok? && EditableOption(t, "dataVolume", false) && MountsOf(t) != []
    ensures var r := SpecForUpdate(t, current, Some(sel)).value;
      && DataVolumeGiB(current).Ok? && DataVolumeGiB(t).Ok? && DataVolumeGiB(r).Ok?
      && CapacityIs(sel, Larger(DataVolumeGiB(current).value, DataVolumeGiB(t).value), DataVolumeGiB(r).value)
  {
    var full := Completed(t, current, sel);
    OverlaidStorage(t, full);
    ResizedNames(MountsOf(t), ChosenVolume(WithSystemDisk(t), full));
    ValidMountsCount(MountsOf(t));
    CapacityPositive(t);
    SelectedCapacity(t, full);
  }

  /** Without an editable volume the capacity is the template's. */
  lemma UpdateKeepsFixedCapacity(t: Spec, current: Spec, sel: Selection)
    requires SpecForUpdate(t, current, Some(sel)).Ok? && !EditableOption(t, "dataVolume", false)
    ensures DataVolumeGiB(SpecForUpdate(t, current, Some(sel)).value) == DataVolumeGiB(t)
  {
    OverlaidStorage(t, Completed(t, current, sel));
    CapacityIgnoresTheRest(SpecForUpdate(t, current, Some(sel)).value, WithSystemDisk(t));
    SameCapacityBySystemDisk(t);
  }

  // ---------------------------------------------------------------- the first deployment

  predicate ChosenVariable(t: Spec, sel: Selection, r: Spec, key: string) {
    var env := EnvironmentOf(r);
    if Asks(sel, key) then key in env && env[key] == Some(sel.environment.value[key])
    else if key in EnvironmentOf(t) then key in env && env[key] == EnvironmentOf(t)[key]
    else key !in env
  }

  predicate ChosenCommand(t: Spec, sel: Selection, r: Spec) {
    RuntimeCommand(r) == if sel.command.None? then RuntimeCommand(t)
                         else Ok(if sel.command.value == [] then None else sel.command)
  }

  predicate ChosenDependencies(t: Spec, sel: Selection, r: Spec) {
    RuntimeDependencies(r) == if sel.dependencies.None? then RuntimeDependencies(t) else Ok(sel.dependencies)
  }

  predicate ChosenResources(t: Spec, sel: Selection, r: Spec) {
    && ResourceIs(r.cpu, sel.cpu, None, Or(t.cpu, DEFAULT_CPU))
    && ResourceIs(r.memory, sel.memory, None, Or(t.memory, DEFAULT_MEMORY))
    && r.options == t.options && r.envKeys == t.envKeys && r.secretKeys == t.secretKeys && r.others == t.others
    && r.systemDisk == Some(DEFAULT_SYSTEM_DISK)
  }

  lemma VariableTaken(t: Spec, sel: Selection, key: string)
    ensures ChosenVariable(t, sel, Overlaid(t, sel), key)
  {
    OverlaidMembers(t, sel);
  }

  lemma CommandTaken(t: Spec, sel: Selection)
    requires RuntimeCommand(Overlaid(t, sel)).Ok?
    ensures ChosenCommand(t, sel, Overlaid(t, sel))
  {
    var r := Overlaid(t, sel);
    OverlaidMembers(t, sel);
    if sel.command.Some? { GivenCommand(r, sel.command.value); } else { SameField(r, t); }
  }

  lemma DependenciesTaken(t: Spec, sel: Selection)
    requires RuntimeDependencies(Overlaid(t, sel)).Ok?
    ensures ChosenDependencies(t, sel, Overlaid(t, sel))
  {
    OverlaidMembers(t, sel);
    if sel.dependencies.Some? { GivenDependencies(Overlaid(t, sel), sel.dependencies.value); }
  }

  lemma ResourcesTaken(t: Spec, sel: Selection)
    ensures ChosenResources(t, sel, Overlaid(t, sel))
  {
    OverlaidMembers(t, sel);
    OverlaidStorage(t, sel);
  }

  /** A new application gets what was chosen and otherwise the template. */
  lemma SelectionTaken(t: Spec, sel: Selection)
    requires SelectedSpec(t, sel).Ok?
    ensures var r := SelectedSpec(t, sel).value;
      && ChosenResources(t, sel, r) && ChosenCommand(t, sel, r) && ChosenDependencies(t, sel, r)
      && forall key :: ChosenVariable(t, sel, r, key)
  {
    ResourcesTaken(t, sel);
    CommandTaken(t, sel);
    DependenciesTaken(t, sel);
    forall key ensures ChosenVariable(t, sel, Overlaid(t, sel), key) { VariableTaken(t, sel, key); }
  }
}
