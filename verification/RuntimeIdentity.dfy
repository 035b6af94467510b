/** Updating to the same template without asking for anything gives back the release in use. */
module RuntimeIdentity {
  import opened Domain
  import opened RuntimeSpec
  import opened RuntimeOverlay
  import opened RuntimeTheorems

  /** The template declares its editable options, or has no volume for them to matter. */
  predicate Updatable(t: Spec) {
    t.options.Given? || MountsOf(t) == []
  }

  /** An accepted selection `s` over a valid template that can be updated to. */
  ghost predicate Chosen(t: Spec, s: Selection) {
    Valid(t) && Updatable(t) && !Refuses(t, s) && Valid(Overlaid(t, s))
  }

  /** What an update without a request selects for the release `Overlaid(t, s)`. */
  function Again(t: Spec, s: Selection): Selection
    requires !UpdateRefuses(t, Overlaid(t, s), NoSelection())
  {
    Completed(t, Overlaid(t, s), NoSelection())
  }

  lemma OverlaidMembers(t: Spec, sel: Selection)
    ensures var r := Overlaid(t, sel);
      && r.cpu == Some(Or(sel.cpu, Or(t.cpu, DEFAULT_CPU)))
      && r.memory == Some(Or(sel.memory, Or(t.memory, DEFAULT_MEMORY)))
      && r.command == (if sel.command.None? then t.command else Given(Somes(sel.command.value)))
      && r.env == (if sel.environment.None? then t.env
                   else Given(Written(EnvironmentOf(t), sel.environment.value)))
      && r.dependencies == (if sel.dependencies.None? then t.dependencies
                            else Given(Somes(sel.dependencies.value)))
      && r.options == t.options && r.envKeys == t.envKeys && r.secretKeys == t.secretKeys && r.others == t.others
  {
  }

  // ---------------------------------------------------------------- capacity

  lemma ReadableCapacity(s: Spec)
    requires RuntimeStorage(s, true).Ok?
    ensures DataVolumeGiB(s) == RuntimeStorage(s, true)
  {
    if MountsOf(s) != [] { RequiredIsStricter(MountsOf(s), s.dataVolume, Or(s.dataVolume, 0.0)); }
  }

  lemma ChosenCapacity(t: Spec, s: Selection)
    requires Chosen(t, s)
    ensures var x := Overlaid(t, s);
      && DataVolumeGiB(t).Ok? && DataVolumeGiB(x).Ok?
      && (MountsOf(x) == [] <==> MountsOf(t) == [])
      && (!EditableOption(t, "dataVolume", false) ==> DataVolumeGiB(x) == DataVolumeGiB(t))
      && (EditableOption(t, "dataVolume", false) && MountsOf(t) != [] ==>
            DataVolumeGiB(x) == Ok(ChosenVolume(WithSystemDisk(t), s)))
      && (MountsOf(t) != [] && EditableOption(t, "dataVolume", false) ==>
            DataVolumeGiB(x).value >= DataVolumeGiB(t).value)
  {
    ReadableCapacity(t);
    ReadableCapacity(Overlaid(t, s));
    SameCapacityBySystemDisk(t);
    OverlaidStorage(t, s);
    if EditableOption(t, "dataVolume", false) && MountsOf(t) != [] {
      SelectedCapacity(t, s);
    } else if !EditableOption(t, "dataVolume", false) {
      CapacityIgnoresTheRest(Overlaid(t, s), WithSystemDisk(t));
    }
  }

  /** The update is not refused. */
  lemma NotRefused(t: Spec, s: Selection)
    requires Chosen(t, s)
    ensures !UpdateRefuses(t, Overlaid(t, s), NoSelection())
  {
    var x := Overlaid(t, s);
    ChosenCapacity(t, s);
    CapacityPositive(x);
    CapacityPositive(t);
    if MountsOf(t) != [] { ValidMountsCount(MountsOf(t)); }
  }

  /** It selects the capacity in use. */
  lemma SameVolume(t: Spec, s: Selection)
    requires Chosen(t, s) && !UpdateRefuses(t, Overlaid(t, s), NoSelection())
    ensures var base := WithSystemDisk(t);
      && (EditableOption(t, "dataVolume", false) && MountsOf(t) != [] ==>
            ChosenVolume(base, Again(t, s)) == ChosenVolume(base, s))
      && (Again(t, s).dataVolume.Some? ==> EditableOption(t, "dataVolume", false))
      && ChosenVolume(base, Again(t, s)) >= MinimumVolume(base)
    ensures Overlaid(t, Again(t, s)).volumes == Overlaid(t, s).volumes
    ensures Overlaid(t, Again(t, s)).dataVolume == Overlaid(t, s).dataVolume
  {
    ChosenCapacity(t, s);
    CapacityPositive(t);
    CapacityPositive(Overlaid(t, s));
    SameCapacityBySystemDisk(t);
    OverlaidStorage(t, s);
    OverlaidStorage(t, Again(t, s));
    if MountsOf(t) != [] { ValidMountsCount(MountsOf(t)); }
  }

  // ---------------------------------------------------------------- CPU and memory

  lemma SameCompute(t: Spec, s: Selection)
    requires Chosen(t, s) && !UpdateRefuses(t, Overlaid(t, s), NoSelection())
    ensures Overlaid(t, Again(t, s)).cpu == Overlaid(t, s).cpu
    ensures Overlaid(t, Again(t, s)).memory == Overlaid(t, s).memory
    ensures Again(t, s).cpu.Some? ==> EditableOption(t, "cpu", true)
    ensures Again(t, s).memory.Some? ==> EditableOption(t, "memory", true)
    ensures Or(Again(t, s).cpu, Or(t.cpu, DEFAULT_CPU)) >= Or(t.cpu, DEFAULT_CPU)
    ensures Or(Again(t, s).memory, Or(t.memory, DEFAULT_MEMORY)) >= Or(t.memory, DEFAULT_MEMORY)
  {
    OverlaidMembers(t, s);
    OverlaidMembers(t, Again(t, s));
  }

  // ---------------------------------------------------------------- command

  /** An update that leaves the command open chooses the one in use, if there is one. */
  lemma AgainCommand(t: Spec, s: Selection)
    requires !UpdateRefuses(t, Overlaid(t, s), NoSelection())
    ensures Again(t, s).command
         == if EditableOption(t, "command", false) then RuntimeCommand(Overlaid(t, s)).value else None
  {
  }

  predicate LostCommand(t: Spec, s: Selection) {
    s.command == Some([]) && RuntimeCommand(t) != Ok(None)
  }

  lemma SameField(a: Spec, b: Spec)
    requires a.command == b.command
    ensures RuntimeCommand(a) == RuntimeCommand(b)
  {
  }

  /** The template fixes the command. */
  lemma FixedCommandStays(t: Spec, s: Selection)
    requires !RefusesSettings(t, s) && !EditableOption(t, "command", false)
    requires !UpdateRefuses(t, Overlaid(t, s), NoSelection())
    ensures s.command.None? && RuntimeCommand(Overlaid(t, Again(t, s))) == RuntimeCommand(Overlaid(t, s))
  {
    AgainCommand(t, s);
    OverlaidMembers(t, s);
    OverlaidMembers(t, Again(t, s));
    SameField(Overlaid(t, Again(t, s)), Overlaid(t, s));
  }

  /** The user chose one, or left a non-empty one of the template. */
  lemma ProperCommandStays(t: Spec, s: Selection)
    requires RuntimeCommand(Overlaid(t, s)).Ok? && RuntimeCommand(Overlaid(t, s)).value.Some?
    requires !UpdateRefuses(t, Overlaid(t, s), NoSelection()) && EditableOption(t, "command", false)
    ensures s.command != Some([]) && RuntimeCommand(Overlaid(t, Again(t, s))) == RuntimeCommand(Overlaid(t, s))
  {
    AgainCommand(t, s);
    OverlaidMembers(t, s);
    OverlaidMembers(t, Again(t, s));
    SameField(Overlaid(t, Again(t, s)), Overlaid(t, s));
  }

  /** No command is in use: the template's comes back. */
  lemma TemplateCommandReturns(t: Spec, s: Selection)
    requires RuntimeCommand(Overlaid(t, s)) == Ok(None)
    requires !UpdateRefuses(t, Overlaid(t, s), NoSelection())
    ensures s.command == Some([]) || (s.command.None? && RuntimeCommand(t) == Ok(None))
    ensures RuntimeCommand(Overlaid(t, Again(t, s))) == RuntimeCommand(t)
  {
    AgainCommand(t, s);
    OverlaidMembers(t, s);
    OverlaidMembers(t, Again(t, s));
    SameField(Overlaid(t, Again(t, s)), t);
  }

  lemma ValidCommands(t: Spec, s: Selection)
    requires Chosen(t, s)
    ensures RuntimeCommand(t).Ok? && RuntimeCommand(Overlaid(t, s)).Ok? && !RefusesSettings(t, s)
  {
  }

  /** An empty command chosen over a template with one is lost: the update takes it for no choice. */
  lemma CommandKeptIff(t: Spec, s: Selection)
    requires Chosen(t, s) && !UpdateRefuses(t, Overlaid(t, s), NoSelection())
    ensures RuntimeCommand(Overlaid(t, Again(t, s))) == RuntimeCommand(Overlaid(t, s)) <==> !LostCommand(t, s)
    ensures RuntimeCommand(Overlaid(t, Again(t, s))).Ok?
  {
    ValidCommands(t, s);
    if !EditableOption(t, "command", false) {
      FixedCommandStays(t, s);
    } else if RuntimeCommand(Overlaid(t, s)) == Ok(None) {
      TemplateCommandReturns(t, s);
    } else {
      ProperCommandStays(t, s);
    }
  }

  // ---------------------------------------------------------------- environment

  lemma ValidEnvKeys(t: Spec, key: string)
    requires Valid(t) && key in EditableEnv(t)
    ensures HasText(EnvironmentOf(t), key)
  {
    var i :| 0 <= i < |t.envKeys.value| && t.envKeys.value[i] == Some(key);
    assert key in EnvironmentOf(t);
  }

  /** Writing the present values of the editable keys over the template gives the present environment. */
  lemma RewrittenEnvironment(declared: map<string, Option<string>>, chosen: map<string, string>,
                             merged: map<string, string>, keys: seq<string>)
    requires forall key :: key in keys ==> HasText(declared, key)
    requires forall key :: key in chosen ==> key in keys
    requires forall key :: key in merged <==> key in keys
    requires forall key :: key in keys ==>
      key in Written(declared, chosen) && Written(declared, chosen)[key] == Some(merged[key])
    ensures Written(declared, merged) == Written(declared, chosen)
  {
  }

  function ChosenEnvironment(s: Selection): map<string, string> {
    if s.environment.Some? then s.environment.value else map[]
  }

  lemma PresentEnvironment(t: Spec, s: Selection)
    requires Chosen(t, s)
    ensures EnvironmentOf(Overlaid(t, s)) == Written(EnvironmentOf(t), ChosenEnvironment(s))
  {
    OverlaidMembers(t, s);
  }

  lemma ChosenKeysEditable(t: Spec, s: Selection)
    requires !RefusesSettings(t, s)
    ensures forall key :: key in ChosenEnvironment(s) ==> key in EditableEnv(t)
    ensures !(EditableEnv(t) != [] && EditableOption(t, "environment", false)) ==> ChosenEnvironment(s) == map[]
  {
    if s.environment.Some? {
      forall key | key in s.environment.value ensures key in EditableEnv(t) {}
    }
  }

  lemma MergedIsPresent(t: Spec, s: Selection)
    requires Chosen(t, s)
    ensures var merged := MergedEnvironment(t, Overlaid(t, s), NoSelection());
      && (forall key :: key in merged <==> key in EditableEnv(t))
      && (forall key :: key in EditableEnv(t) ==> EnvironmentOf(Overlaid(t, s))[key] == Some(merged[key]))
  {
    PresentEnvironment(t, s);
    ChosenKeysEditable(t, s);
    forall key | key in EditableEnv(t) ensures HasText(EnvironmentOf(Overlaid(t, s)), key) {
      ValidEnvKeys(t, key);
    }
  }

  predicate EnvironmentOpen(t: Spec) {
    EditableEnv(t) != [] && EditableOption(t, "environment", false)
  }

  lemma OpenEnvironmentStays(t: Spec, s: Selection)
    requires Chosen(t, s) && EnvironmentOpen(t)
    ensures Written(EnvironmentOf(t), MergedEnvironment(t, Overlaid(t, s), NoSelection()))
         == EnvironmentOf(Overlaid(t, s))
  {
    PresentEnvironment(t, s);
    ChosenKeysEditable(t, s);
    MergedIsPresent(t, s);
    forall key | key in EditableEnv(t) ensures HasText(EnvironmentOf(t), key) { ValidEnvKeys(t, key); }
    var merged := MergedEnvironment(t, Overlaid(t, s), NoSelection());
    RewrittenEnvironment(EnvironmentOf(t), ChosenEnvironment(s), merged, EditableEnv(t));
  }

  lemma NothingWritten(env: map<string, Option<string>>)
    ensures Written(env, map[]) == env
  {
  }

  lemma FixedEnvironmentStays(t: Spec, s: Selection)
    requires Chosen(t, s) && !EnvironmentOpen(t)
    ensures EnvironmentOf(Overlaid(t, s)) == EnvironmentOf(t)
  {
    PresentEnvironment(t, s);
    ChosenKeysEditable(t, s);
    NothingWritten(EnvironmentOf(t));
  }

  lemma SameEnvironment(t: Spec, s: Selection)
    requires Chosen(t, s) && !UpdateRefuses(t, Overlaid(t, s), NoSelection())
    ensures EnvironmentOf(Overlaid(t, Again(t, s))) == EnvironmentOf(Overlaid(t, s))
    ensures !Overlaid(t, Again(t, s)).env.Wrong?
    ensures Again(t, s).environment.Some? ==> EditableOption(t, "environment", false)
    ensures Again(t, s).environment.Some? ==> forall key :: key in Again(t, s).environment.value ==>
      key in EditableEnv(t)
  {
    OverlaidMembers(t, Again(t, s));
    if EnvironmentOpen(t) {
      OpenEnvironmentStays(t, s);
      MergedIsPresent(t, s);
    } else {
      FixedEnvironmentStays(t, s);
    }
  }

  // ---------------------------------------------------------------- dependencies

  lemma AgainDependencies(t: Spec, s: Selection)
    requires !UpdateRefuses(t, Overlaid(t, s), NoSelection())
    ensures Again(t, s).dependencies
         == if EditableOption(t, "dependencies", false) then RuntimeDependencies(Overlaid(t, s)).value else None
  {
  }

  lemma DependenciesStay(t: Spec, s: Selection)
    requires !RefusesSettings(t, s) && RuntimeDependencies(Overlaid(t, s)).Ok?
    requires !UpdateRefuses(t, Overlaid(t, s), NoSelection())
    ensures Overlaid(t, Again(t, s)).dependencies == Overlaid(t, s).dependencies
  {
    AgainDependencies(t, s);
    OverlaidMembers(t, s);
    OverlaidMembers(t, Again(t, s));
  }

  lemma ValidDependencies(t: Spec, s: Selection)
    requires Chosen(t, s)
    ensures RuntimeDependencies(Overlaid(t, s)).Ok? && !RefusesSettings(t, s)
  {
  }

  lemma SameDependencies(t: Spec, s: Selection)
    requires Chosen(t, s) && !UpdateRefuses(t, Overlaid(t, s), NoSelection())
    ensures Overlaid(t, Again(t, s)).dependencies == Overlaid(t, s).dependencies
  {
    ValidDependencies(t, s);
    DependenciesStay(t, s);
  }

  // ---------------------------------------------------------------- the whole

  /** The same CPU, memory, capacity, environment and dependencies, and everything the template fixes. */
  predicate SameButCommand(x: Spec, r: Spec) {
    && r == x.(command := r.command, env := r.env)
    && EnvironmentOf(r) == EnvironmentOf(x)
  }

  lemma ValidAgain(x: Spec, r: Spec)
    requires Valid(x) && SameButCommand(x, r) && RuntimeCommand(r).Ok? && !r.env.Wrong?
    ensures Valid(r)
  {
  }

  lemma AgainIsTheSame(t: Spec, s: Selection)
    requires Chosen(t, s) && !UpdateRefuses(t, Overlaid(t, s), NoSelection())
    ensures SameButCommand(Overlaid(t, s), Overlaid(t, Again(t, s)))
  {
    OverlaidMembers(t, s);
    OverlaidMembers(t, Again(t, s));
    OverlaidStorage(t, s);
    OverlaidStorage(t, Again(t, s));
    SameVolume(t, s);
    SameCompute(t, s);
    SameEnvironment(t, s);
    SameDependencies(t, s);
  }

  lemma AgainIsAccepted(t: Spec, s: Selection)
    requires Chosen(t, s) && !UpdateRefuses(t, Overlaid(t, s), NoSelection())
    ensures !Refuses(t, Again(t, s))
  {
    SameVolume(t, s);
    SameCompute(t, s);
    AgainCommand(t, s);
    SameEnvironment(t, s);
    AgainDependencies(t, s);
  }

  /** Over a valid template, an update that requests nothing succeeds if and only if the template declares
      its editable options or has no volumes. It is then the identity on everything but the command, and
      on the command exactly unless an empty one was chosen over a template that has one. */
  lemma NoRequestIsIdentityIff(t: Spec, s: Selection)
    requires Valid(t) && SelectedSpec(t, s).Ok?
    ensures SpecForUpdate(t, SelectedSpec(t, s).value, None).Ok? <==> t.options.Given? || MountsOf(t) == []
    ensures var x := SelectedSpec(t, s).value;
      var r := SpecForUpdate(t, x, None);
      r.Ok? ==>
        && SameButCommand(x, r.value)
        && DataVolumeGiB(r.value) == DataVolumeGiB(x)
        && RuntimeDependencies(r.value) == RuntimeDependencies(x)
        && (RuntimeCommand(r.value) == RuntimeCommand(x) <==> !LostCommand(t, s))
  {
    if Updatable(t) {
      UpdatableIsIdentity(t, s);
    } else {
      UndeclaredOptionsRefuseUpdates(t, SelectedSpec(t, s).value, None);
    }
  }

  lemma UpdatableIsIdentity(t: Spec, s: Selection)
    requires Valid(t) && Updatable(t) && SelectedSpec(t, s).Ok?
    ensures var x := SelectedSpec(t, s).value;
      var r := SpecForUpdate(t, x, None);
      && r.Ok? && SameButCommand(x, r.value)
      && DataVolumeGiB(r.value) == DataVolumeGiB(x)
      && RuntimeDependencies(r.value) == RuntimeDependencies(x)
      && (RuntimeCommand(r.value) == RuntimeCommand(x) <==> !LostCommand(t, s))
  {
    var x := Overlaid(t, s);
    NotRefused(t, s);
    AgainIsAccepted(t, s);
    AgainIsTheSame(t, s);
    CommandKeptIff(t, s);
    SameEnvironment(t, s);
    ValidAgain(x, Overlaid(t, Again(t, s)));
    CapacityIgnoresTheRest(x, Overlaid(t, Again(t, s)));
  }

  // ---------------------------------------------------------------- a lost command

  /** A template without volumes that runs a command and lets the user edit it. */
  function Runner(command: seq<string>): Spec {
    Spec(Some(1.0), Some(512.0), Some(DEFAULT_SYSTEM_DISK), None, Missing, Given(map["command" := Some(true)]),
         Given(Somes(command)), Missing, Missing, Missing, {}, true)
  }

  function NoCommand(): Selection {
    NoSelection().(command := Some([]))
  }

  lemma RunnerIsValid()
    ensures Valid(Runner(["run"])) && RuntimeCommand(Runner(["run"])) == Ok(Some(["run"]))
    ensures Valid(Runner([])) && RuntimeCommand(Runner([])) == Ok(None)
  {
    assert Somes(["run"]) == [Some("run")] && Values([Some("run")]) == ["run"];
    assert TotalLength([Some("run")]) == 3 by { assert [Some("run")][1..] == []; }
    assert EnvironmentSize(map[]) == 0;
  }

  /** The user empties the command; an update that asks for nothing brings it back. */
  lemma EmptiedCommandComesBack()
    ensures Valid(Runner(["run"]))
    ensures SelectedSpec(Runner(["run"]), NoCommand()) == Ok(Runner([]))
    ensures SpecForUpdate(Runner(["run"]), Runner([]), None) == Ok(Runner(["run"]))
  {
    var t := Runner(["run"]);
    RunnerIsValid();
    assert Overlaid(t, NoCommand()) == Runner([]);
    assert !Refuses(t, NoCommand());
    assert !UpdateRefuses(t, Runner([]), NoSelection());
    var again := Completed(t, Runner([]), NoSelection());
    assert Overlaid(t, again) == t;
  }
}
