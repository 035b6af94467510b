/** Capacity only grows over updates, and an update that asks for nothing changes nothing. */
module RuntimeTheorems {
  import opened Domain
  import opened RuntimeSpec
  import opened RuntimeOverlay

  // ---------------------------------------------------------------- capacity

  lemma {:induction false} DataDiskAtLeast(mounts: seq<Mount>, required: bool, declared: Option<real>, disk: real)
    requires DataDisk(mounts, required, declared, disk).Ok?
    ensures declared.Some? ==> DataDisk(mounts, required, declared, disk).value >= disk
    ensures declared.None? && mounts != [] ==> DataDisk(mounts, required, declared, disk).value >= MIN_VOLUME
    decreases |mounts|
  {
    if mounts != [] {
      var size := Or(mounts[0].size, DEFAULT_VOLUME);
      DataDiskAtLeast(mounts[1..], required, declared, if declared.None? || size > disk then size else disk);
    }
  }

  /** A readable capacity is zero without mounts and at least the smallest volume with them. */
  lemma CapacityPositive(s: Spec)
    requires DataVolumeGiB(s).Ok?
    ensures DataVolumeGiB(s).value == 0.0 || DataVolumeGiB(s).value >= MIN_VOLUME
    ensures DataVolumeGiB(s).value > 0.0 <==> MountsOf(s) != []
  {
    if MountsOf(s) != [] { DataDiskAtLeast(MountsOf(s), false, s.dataVolume, Or(s.dataVolume, 0.0)); }
  }

  predicate AllSized(mounts: seq<Mount>, size: real) {
    forall i :: 0 <= i < |mounts| ==> mounts[i].Mount? && mounts[i].size == Some(size)
  }

  lemma {:induction false} DataDiskOfEqualMounts(mounts: seq<Mount>, required: bool, size: real)
    requires AllSized(mounts, size) && MIN_VOLUME <= size <= MAX_VOLUME
    ensures DataDisk(mounts, required, Some(size), size) == Ok(size)
    decreases |mounts|
  {
    if mounts != [] { DataDiskOfEqualMounts(mounts[1..], required, size); }
  }

  lemma {:induction false} RequiredIsStricter(mounts: seq<Mount>, declared: Option<real>, disk: real)
    requires DataDisk(mounts, true, declared, disk).Ok?
    ensures DataDisk(mounts, false, declared, disk) == DataDisk(mounts, true, declared, disk)
    decreases |mounts|
  {
    if mounts != [] {
      var size := Or(mounts[0].size, DEFAULT_VOLUME);
      RequiredIsStricter(mounts[1..], declared, if declared.None? || size > disk then size else disk);
    }
  }

  /** Resizing to a capacity makes it the capacity. */
  lemma ResizedCapacity(s: Spec, size: real)
    requires EditableOption(s, "dataVolume", false) && MountsOf(s) != []
    requires RuntimeStorage(WithVolume(s, size), true).Ok?
    ensures DataVolumeGiB(WithVolume(s, size)) == Ok(size)
  {
    var r := WithVolume(s, size);
    RequiredIsStricter(MountsOf(r), r.dataVolume, size);
    FirstSize(MountsOf(r), size);
    forall i | 0 <= i < |MountsOf(r)| ensures MountsOf(r)[i].Mount? {
      MountsAreMounts(MountsOf(r), true, Some(size), size, i);
    }
    DataDiskOfEqualMounts(MountsOf(r), false, size);
  }

  lemma {:induction false} MountsAreMounts(mounts: seq<Mount>, required: bool, declared: Option<real>, disk: real,
                                           i: nat)
    requires DataDisk(mounts, required, declared, disk).Ok? && i < |mounts|
    ensures mounts[i].Mount?
    ensures MIN_VOLUME <= Or(mounts[i].size, DEFAULT_VOLUME) <= MAX_VOLUME
    decreases |mounts|
  {
    var size := Or(mounts[0].size, DEFAULT_VOLUME);
    if i > 0 {
      MountsAreMounts(mounts[1..], required, declared, if declared.None? || size > disk then size else disk, i - 1);
    }
  }

  lemma FirstSize(mounts: seq<Mount>, size: real)
    requires mounts != [] && DataDisk(mounts, true, Some(size), size).Ok?
    requires forall i :: 0 <= i < |mounts| && mounts[i].Mount? ==> mounts[i].size == Some(size)
    ensures MIN_VOLUME <= size <= MAX_VOLUME
  {
    MountsAreMounts(mounts, true, Some(size), size, 0);
  }

  // ---------------------------------------------------------------- the overlay, member by member

  /** Only the volume step touches what the capacity is read from. */
  lemma OverlaidStorage(t: Spec, sel: Selection)
    ensures var r := Overlaid(t, sel);
      && r.systemDisk == Some(DEFAULT_SYSTEM_DISK) && r.options == t.options
      && r.volumes == (if EditableOption(t, "dataVolume", false) && MountsOf(t) != []
                       then Given(Resized(MountsOf(t), ChosenVolume(WithSystemDisk(t), sel))) else t.volumes)
      && r.dataVolume == (if !EditableOption(t, "dataVolume", false) then t.dataVolume
                          else if MountsOf(t) != [] then Some(ChosenVolume(WithSystemDisk(t), sel)) else None)
  {
  }

  lemma CapacityIgnoresTheRest(a: Spec, b: Spec)
    requires a.systemDisk == b.systemDisk && a.dataVolume == b.dataVolume && a.volumes == b.volumes
    ensures RuntimeStorage(a, true) == RuntimeStorage(b, true) && DataVolumeGiB(a) == DataVolumeGiB(b)
  {
  }

  /** A selection that is accepted on a template with an editable volume gets the capacity it chose. */
  lemma SelectedCapacity(t: Spec, sel: Selection)
    requires SelectedSpec(t, sel).Ok? && EditableOption(t, "dataVolume", false) && MountsOf(t) != []
    ensures DataVolumeGiB(SelectedSpec(t, sel).value) == Ok(ChosenVolume(WithSystemDisk(t), sel))
  {
    var base := WithSystemDisk(t);
    var size := ChosenVolume(base, sel);
    OverlaidStorage(t, sel);
    CapacityIgnoresTheRest(Overlaid(t, sel), WithVolume(base, size));
    ResizedCapacity(base, size);
  }

  lemma SameCapacityBySystemDisk(t: Spec)
    requires DataVolumeGiB(t).Ok?
    ensures DataVolumeGiB(WithSystemDisk(t)) == DataVolumeGiB(t)
  {
  }

  /** An accepted update never lowers the shared capacity, whatever the template and the request. */
  lemma UpdateKeepsCapacity(t: Spec, current: Spec, requested: Option<Selection>)
    ensures var r := SpecForUpdate(t, current, requested);
      r.Ok? ==>
        && DataVolumeGiB(current).Ok? && DataVolumeGiB(r.value).Ok?
        && DataVolumeGiB(r.value).value >= DataVolumeGiB(current).value
  {
    if SpecForUpdate(t, current, requested).Ok? { AcceptedUpdateKeepsCapacity(t, current, requested); }
  }

  lemma AcceptedUpdateKeepsCapacity(t: Spec, current: Spec, requested: Option<Selection>)
    requires SpecForUpdate(t, current, requested).Ok?
    ensures DataVolumeGiB(current).Ok? && DataVolumeGiB(SpecForUpdate(t, current, requested).value).Ok?
    ensures DataVolumeGiB(SpecForUpdate(t, current, requested).value).value >= DataVolumeGiB(current).value
  {
    var sel := if requested.Some? then requested.value else NoSelection();
    var full := Completed(t, current, sel);
    var r := Overlaid(t, full);
    SameCapacityBySystemDisk(t);
    CapacityPositive(current);
    CapacityPositive(t);
    OverlaidStorage(t, full);
    if MountsOf(r) != [] {
      RequiredIsStricter(MountsOf(r), r.dataVolume, Or(r.dataVolume, 0.0));
    }
    if EditableOption(t, "dataVolume", false) && MountsOf(t) != [] {
      SelectedCapacity(t, full);
    } else if MountsOf(t) != [] {
      CapacityIgnoresTheRest(r, WithSystemDisk(t));
      assert DataVolumeGiB(r) == DataVolumeGiB(t);
    } else {
      assert VolumeMounts(MountsOf(t)) == [];
      assert MountsOf(r) == [];
    }
  }

  ghost function UpdateAll(current: Spec, templates: seq<Spec>, requests: seq<Option<Selection>>): Outcome<Spec>
    requires |templates| == |requests|
  {
    if templates == [] then Ok(current)
    else
      var n := |templates| - 1;
      var before := UpdateAll(current, templates[..n], requests[..n]);
      if before.Error? then Error else SpecForUpdate(templates[n], before.value, requests[n])
  }

  /** Over any chain of accepted updates the capacity never decreases. */
  lemma {:induction false} ChainKeepsCapacity(current: Spec, templates: seq<Spec>, requests: seq<Option<Selection>>)
    requires |templates| == |requests| && UpdateAll(current, templates, requests).Ok? && DataVolumeGiB(current).Ok?
    ensures DataVolumeGiB(UpdateAll(current, templates, requests).value).Ok?
    ensures DataVolumeGiB(UpdateAll(current, templates, requests).value).value >= DataVolumeGiB(current).value
  {
    if templates != [] {
      var n := |templates| - 1;
      ChainKeepsCapacity(current, templates[..n], requests[..n]);
      UpdateKeepsCapacity(templates[n], UpdateAll(current, templates[..n], requests[..n]).value, requests[n]);
    }
  }

  // ---------------------------------------------------------------- the documented capacity

  function SizeOf(m: Mount): real {
    if m.Mount? then Or(m.size, DEFAULT_VOLUME) else 0.0
  }

  function LargestMount(mounts: seq<Mount>): real {
    if mounts == [] then 0.0 else Larger(LargestMount(mounts[1..]), SizeOf(mounts[0]))
  }

  lemma {:induction false} DeclaredKeepsLargest(mounts: seq<Mount>, required: bool, declared: real, disk: real)
    requires DataDisk(mounts, required, Some(declared), disk).Ok? && (disk >= 0.0 || mounts != [])
    ensures DataDisk(mounts, required, Some(declared), disk).value == Larger(LargestMount(mounts), disk)
    decreases |mounts|
  {
    if mounts != [] {
      DeclaredKeepsLargest(mounts[1..], required, declared, Larger(disk, SizeOf(mounts[0])));
    }
  }

  /** Without a declared capacity every mount replaces the one before, so the last one decides. */
  lemma {:induction false} LastMountDecides(mounts: seq<Mount>, required: bool, disk: real)
    requires mounts != [] && DataDisk(mounts, required, None, disk).Ok?
    ensures DataDisk(mounts, required, None, disk).value == SizeOf(mounts[|mounts| - 1])
    decreases |mounts|
  {
    if |mounts| > 1 {
      LastMountDecides(mounts[1..], required, SizeOf(mounts[0]));
      assert mounts[1..][|mounts| - 2] == mounts[|mounts| - 1];
    } else {
      assert mounts[1..] == [];
    }
  }

  /** The comment on the function promises the largest size. That is what it returns exactly when a
      capacity is declared or the last mount happens to be a largest one. */
  lemma CapacityIsLargestIff(s: Spec)
    requires DataVolumeGiB(s).Ok? && MountsOf(s) != []
    ensures var mounts := MountsOf(s);
      DataVolumeGiB(s).value == Larger(LargestMount(mounts), Or(s.dataVolume, 0.0))
      <==> s.dataVolume.Some? || SizeOf(mounts[|mounts| - 1]) == LargestMount(mounts)
  {
    var mounts := MountsOf(s);
    if s.dataVolume.Some? {
      DeclaredKeepsLargest(mounts, false, s.dataVolume.value, s.dataVolume.value);
    } else {
      LastMountDecides(mounts, false, 0.0);
      LargestNotNegative(mounts);
    }
  }

  const LARGE := Mount("data", "/data", Some(20.0))
  const SMALL := Mount("cache", "/cache", Some(10.0))

  /** A legacy specification: two mounts, the larger one first, and no declared capacity. */
  function TwoMounts(): Spec {
    Spec(Some(1.0), Some(512.0), None, None, Given([LARGE, SMALL]),
         Missing, Missing, Missing, Missing, Missing, {}, true)
  }

  /** It counts as 10 GiB where the comment promises 20. */
  lemma SmallerLastMountCounts()
    ensures DataVolumeGiB(TwoMounts()) == Ok(10.0) && LargestMount(MountsOf(TwoMounts())) == 20.0
  {
    var mounts := [LARGE, SMALL];
    assert mounts[1..] == [SMALL] && [SMALL][1..] == [];
    assert LargestMount([SMALL]) == 10.0;
    assert DataDisk([SMALL], false, None, 20.0) == Ok(10.0);
    assert DataDisk(mounts, false, None, 0.0) == Ok(10.0);
  }

  lemma {:induction false} LargestNotNegative(mounts: seq<Mount>)
    ensures LargestMount(mounts) >= 0.0
  {
    if mounts != [] { LargestNotNegative(mounts[1..]); }
  }

  // ---------------------------------------------------------------- templates without editable options

  lemma {:induction false} ValidMountsCount(mounts: seq<Mount>)
    requires GoodMounts(mounts) && mounts != []
    ensures VolumeMounts(mounts) != []
  {
    assert mounts[0].Mount? && ResourceKey(mounts[0].name) && GoodPath(mounts[0].path);
  }

  /** A template that mounts volumes but declares no editable options refuses every update: the volume
      counts as editable when the present capacity is kept, and as fixed when the selection is applied. */
  lemma UndeclaredOptionsRefuseUpdates(t: Spec, current: Spec, requested: Option<Selection>)
    requires Valid(t) && !t.options.Given? && MountsOf(t) != []
    ensures SpecForUpdate(t, current, requested).Error?
  {
    var sel := if requested.Some? then requested.value else NoSelection();
    ValidMountsCount(MountsOf(t));
    if !UpdateRefuses(t, current, sel) {
      CapacityPositive(t);
      assert Completed(t, current, sel).dataVolume.Some?;
    }
  }

  /** Such a template: one mount, no editable options. */
  function OneMount(): Spec {
    Spec(Some(1.0), Some(512.0), None, None, Given([SMALL]), Missing, Missing, Missing, Missing, Missing, {}, true)
  }

  lemma OneMountStorage()
    ensures RuntimeStorage(OneMount(), true) == Ok(10.0)
  {
    assert [SMALL][1..] == [];
    assert DataDisk([], true, None, 10.0) == Ok(10.0);
    assert DataDisk([SMALL], true, None, 0.0) == Ok(10.0);
  }

  /** It passes the validation of a template, and an application on it can never be updated. */
  lemma OneMountIsNeverUpdated()
    ensures Valid(OneMount())
    ensures forall current, requested :: SpecForUpdate(OneMount(), current, requested).Error?
  {
    OneMountStorage();
    assert SMALL.name == "cache" && SMALL.path == "/cache";
    assert EnvironmentSize(map[]) == 0;
    forall current, requested ensures SpecForUpdate(OneMount(), current, requested).Error? {
      UndeclaredOptionsRefuseUpdates(OneMount(), current, requested);
    }
  }
}
