/** Which specifications can be read at all. */
module RuntimeLimits {
  import opened Domain
  import opened Strings
  import opened RuntimeSpec
  import opened RuntimeOverlay
  import opened RuntimeTheorems
  import Slugs

  predicate Between(x: Option<real>, low: real, high: real) {
    x.Some? ==> low <= x.value <= high
  }

  /** CPU from a tenth to 64 cores and memory from 64 MiB to 256 GiB, both given where they are required. */
  lemma ResourcesReadIff(s: Spec, required: bool)
    ensures RuntimeResources(s, required).Ok? <==>
      && (required ==> s.cpu.Some? && s.memory.Some?)
      && Between(s.cpu, 0.1, 64.0) && Between(s.memory, 64.0, 262144.0)
  {
  }

  predicate ReadableMount(m: Mount, required: bool) {
    m.Mount? && (required ==> m.size.Some?) && Between(m.size, 1.0, 16384.0)
  }

  lemma {:induction false} DataDiskReadIff(mounts: seq<Mount>, required: bool, declared: Option<real>, disk: real)
    ensures DataDisk(mounts, required, declared, disk).Ok? <==>
      forall i :: 0 <= i < |mounts| ==> ReadableMount(mounts[i], required)
    decreases |mounts|
  {
    if mounts != [] {
      assert forall i :: 1 <= i < |mounts| ==> mounts[i] == mounts[1..][i - 1];
      assert forall i :: 0 <= i < |mounts[1..]| ==> mounts[1..][i] == mounts[i + 1];
      if ReadableMount(mounts[0], required) {
        var size := Or(mounts[0].size, DEFAULT_VOLUME);
        DataDiskReadIff(mounts[1..], required, declared, if declared.None? || size > disk then size else disk);
      }
    }
  }

  lemma {:induction false} LargestWithin(mounts: seq<Mount>)
    requires forall i :: 0 <= i < |mounts| ==> ReadableMount(mounts[i], false)
    ensures LargestMount(mounts) <= 16384.0 && (mounts != [] ==> LargestMount(mounts) >= 1.0)
  {
    if mounts != [] {
      assert ReadableMount(mounts[0], false);
      LargestWithin(mounts[1..]);
    }
  }

  /** A system disk from 1 GiB to 1 TiB, and volumes from 1 GiB to 16 TiB, each mount an object, its size given
      where it is required; a declared capacity may be smaller than that but not larger. */
  lemma StorageReadIff(s: Spec, required: bool)
    ensures RuntimeStorage(s, required).Ok? <==>
      && Between(s.systemDisk, 1.0, 1024.0)
      && (forall i :: 0 <= i < |MountsOf(s)| ==> ReadableMount(MountsOf(s)[i], required))
      && (MountsOf(s) != [] && s.dataVolume.Some? ==> s.dataVolume.value <= 16384.0)
  {
    var mounts := MountsOf(s);
    DataDiskReadIff(mounts, required, s.dataVolume, Or(s.dataVolume, 0.0));
    if mounts != [] && s.dataVolume.Some? && DataDisk(mounts, required, s.dataVolume, s.dataVolume.value).Ok? {
      DeclaredKeepsLargest(mounts, required, s.dataVolume.value, s.dataVolume.value);
      assert forall i :: 0 <= i < |mounts| ==> ReadableMount(mounts[i], required) && ReadableMount(mounts[i], false);
      LargestWithin(mounts);
    }
  }

  function TextLength(args: seq<Option<string>>): nat {
    if args == [] then 0
    else TextLength(args[..|args| - 1]) + if args[|args| - 1].Some? then |args[|args| - 1].value| else 0
  }

  lemma {:induction false} LengthAppended(args: seq<Option<string>>, last: Option<string>)
    ensures TotalLength(args + [last]) == TotalLength(args) + if last.Some? then |last.value| else 0
  {
    if args == [] {
      assert args + [last] == [last] && [last][1..] == [];
    } else {
      LengthAppended(args[1..], last);
      assert (args + [last])[1..] == args[1..] + [last];
    }
  }

  lemma {:induction false} SameLength(args: seq<Option<string>>)
    ensures TotalLength(args) == TextLength(args)
  {
    if args != [] {
      SameLength(args[..|args| - 1]);
      LengthAppended(args[..|args| - 1], args[|args| - 1]);
      assert args == args[..|args| - 1] + [args[|args| - 1]];
    }
  }

  predicate ReadableArgument(arg: Option<string>) {
    arg.Some? && TrimSpace(arg.value) != "" && |arg.value| <= 4096
  }

  /** A command of up to 64 arguments, none blank or longer than 4096, 16384 in all; none given or an empty one
      is no command. */
  lemma CommandReadIff(s: Spec)
    ensures RuntimeCommand(s).Ok? <==>
      s.command.Missing? || (s.command.Given?
        && |s.command.value| <= 64 && TextLength(s.command.value) <= 16384
        && forall i :: 0 <= i < |s.command.value| ==> ReadableArgument(s.command.value[i]))
    ensures RuntimeCommand(s).Ok? ==>
      (RuntimeCommand(s).value.None? <==> s.command.Missing? || s.command.value == [])
    ensures RuntimeCommand(s).Ok? && RuntimeCommand(s).value.Some? ==>
      Somes(RuntimeCommand(s).value.value) == s.command.value
  {
    if s.command.Given? {
      SameLength(s.command.value);
      assert forall i :: 0 <= i < |s.command.value| ==>
        (GoodArgument(s.command.value[i]) <==> ReadableArgument(s.command.value[i]));
    }
  }

  predicate ReadableDependency(d: Option<Dependency>) {
    d.Some? && ResourceKey(d.value.key) && Uuid(d.value.productId) && Slugs.SlugPattern(d.value.serviceSlug)
  }

  predicate OwnNames(ds: seq<Option<Dependency>>)
    requires AllSome(ds)
  {
    forall i, j :: 0 <= i < j < |ds| ==>
      ds[i].value.key != ds[j].value.key && ds[i].value.serviceSlug != ds[j].value.serviceSlug
  }

  predicate ReadableDependencies(ds: seq<Option<Dependency>>) {
    && |ds| <= 32 && (forall i :: 0 <= i < |ds| ==> ReadableDependency(ds[i]))
    && OwnNames(ds)
  }

  /** Up to 32 dependencies, each well formed, with keys and service names of their own. */
  lemma DependenciesReadIff(s: Spec)
    ensures RuntimeDependencies(s).Ok? <==>
      s.dependencies.Missing? || (s.dependencies.Given? && ReadableDependencies(s.dependencies.value))
    ensures RuntimeDependencies(s).Ok? ==>
      RuntimeDependencies(s).value == if s.dependencies.Missing? then None else Some(Values(s.dependencies.value))
  {
    if s.dependencies.Given? {
      var ds := s.dependencies.value;
      assert forall i :: 0 <= i < |ds| ==> (GoodDependency(ds[i]) <==> ReadableDependency(ds[i]));
    }
  }
}
