/** Runtime specifications: what a template may declare and how a capacity is read off one. */
module RuntimeSpec {
  import opened Domain
  import opened Strings
  import Slugs

  // ---------------------------------------------------------------- the JSON a specification is made of

  /** A member that is absent, has the wrong JSON type, or holds a value. */
  datatype Field<T> = Missing | Wrong | Given(value: T)

  datatype Mount = NotAMount | Mount(name: string, path: string, size: Option<real>)

  datatype Dependency = Dependency(key: string, productId: string, serviceSlug: string, required: bool)

  /** Numbers that are absent or no numbers are None. `others` says that the checks on the members the
      overlay never touches (privileges, networks, secret metadata, descriptions) pass. */
  datatype Spec = Spec(
    cpu: Option<real>, memory: Option<real>, systemDisk: Option<real>, dataVolume: Option<real>,
    volumes: Field<seq<Mount>>, options: Field<map<string, Option<bool>>>,
    command: Field<seq<Option<string>>>, env: Field<map<string, Option<string>>>,
    envKeys: Field<seq<Option<string>>>, dependencies: Field<seq<Option<Dependency>>>,
    secretKeys: set<string>, others: bool)

  datatype Outcome<T> = Error | Ok(value: T)

  const DEFAULT_CPU: real := 1.0
  const MIN_CPU: real := 0.1
  const MAX_CPU: real := 64.0
  const DEFAULT_MEMORY: real := 512.0
  const MIN_MEMORY: real := 64.0
  const MAX_MEMORY: real := 262144.0
  const DEFAULT_SYSTEM_DISK: real := 5.0
  const MIN_SYSTEM_DISK: real := 1.0
  const MAX_SYSTEM_DISK: real := 1024.0
  const DEFAULT_VOLUME: real := 10.0
  const MIN_VOLUME: real := 1.0
  const MAX_VOLUME: real := 16384.0

  // ---------------------------------------------------------------- resources and storage

  datatype Compute = Compute(cpu: real, memory: real)

  function Or(x: Option<real>, fallback: real): real {
    if x.Some? then x.value else fallback
  }

  function RuntimeResources(s: Spec, required: bool): (r: Outcome<Compute>)
    ensures r.Ok? ==> r.value == Compute(Or(s.cpu, DEFAULT_CPU), Or(s.memory, DEFAULT_MEMORY))
  {
    if required && (s.cpu.None? || s.memory.None?) then Error
    else
      var cpu, memory := Or(s.cpu, DEFAULT_CPU), Or(s.memory, DEFAULT_MEMORY);
      if cpu < MIN_CPU || cpu > MAX_CPU || memory < MIN_MEMORY || memory > MAX_MEMORY then Error
      else Ok(Compute(cpu, memory))
  }

  function MountsOf(s: Spec): seq<Mount> {
    if s.volumes.Given? then s.volumes.value else []
  }

  /** The loop of RuntimeStorage over the mounts. With `declared` None every mount replaces the value
      found so far; otherwise the larger one wins. */
  function DataDisk(mounts: seq<Mount>, required: bool, declared: Option<real>, disk: real): (r: Outcome<real>)
    decreases |mounts|
  {
    if mounts == [] then Ok(disk)
    else if mounts[0].NotAMount? || (required && mounts[0].size.None?) then Error
    else
      var size := Or(mounts[0].size, DEFAULT_VOLUME);
      if size < MIN_VOLUME || size > MAX_VOLUME then Error
      else DataDisk(mounts[1..], required, declared, if declared.None? || size > disk then size else disk)
  }

  function RuntimeStorage(s: Spec, required: bool): (r: Outcome<real>)
  {
    var system := Or(s.systemDisk, DEFAULT_SYSTEM_DISK);
    if system < MIN_SYSTEM_DISK || system > MAX_SYSTEM_DISK then Error
    else if MountsOf(s) == [] then Ok(0.0)
    else
      var disk := DataDisk(MountsOf(s), required, s.dataVolume, Or(s.dataVolume, 0.0));
      if disk.Ok? && s.dataVolume.Some? && (disk.value < MIN_VOLUME || disk.value > MAX_VOLUME) then Error else disk
  }

  method ComputeStorage(s: Spec, required: bool) returns (r: Outcome<real>)
    ensures r == RuntimeStorage(s, required)
  {
    var system := if s.systemDisk.Some? then s.systemDisk.value else DEFAULT_SYSTEM_DISK;
    if system < MIN_SYSTEM_DISK || system > MAX_SYSTEM_DISK { return Error; }
    var disk := 0.0;
    var mounts := MountsOf(s);
    if mounts != [] {
      if s.dataVolume.Some? { disk := s.dataVolume.value; }
      var k := 0;
      while k < |mounts|
        invariant 0 <= k <= |mounts|
        invariant DataDisk(mounts[k..], required, s.dataVolume, disk)
               == DataDisk(mounts, required, s.dataVolume, Or(s.dataVolume, 0.0))
      {
        if mounts[k].NotAMount? || (required && mounts[k].size.None?) { return Error; }
        var size := if mounts[k].size.Some? then mounts[k].size.value else DEFAULT_VOLUME;
        if size < MIN_VOLUME || size > MAX_VOLUME { return Error; }
        if s.dataVolume.None? || size > disk { disk := size; }
        assert mounts[k..][1..] == mounts[k + 1..];
        k := k + 1;
      }
      if s.dataVolume.Some? && (disk < MIN_VOLUME || disk > MAX_VOLUME) { return Error; }
    }
    return Ok(disk);
  }

  /** The capacity shared by the mounts of an application. */
  function DataVolumeGiB(s: Spec): Outcome<real> {
    RuntimeStorage(s, false)
  }

  /** VolumeMounts: the mounts with a name and a path. */
  function VolumeMounts(mounts: seq<Mount>): (r: seq<Mount>)
    ensures r != [] ==> mounts != []
  {
    if mounts == [] then []
    else if mounts[0].Mount? && mounts[0].name != "" && mounts[0].path != ""
    then [mounts[0]] + VolumeMounts(mounts[1..])
    else VolumeMounts(mounts[1..])
  }

  // ---------------------------------------------------------------- options, commands, environments, dependencies

  function EditableOption(s: Spec, key: string, legacyDefault: bool): bool {
    if !s.options.Given? then legacyDefault
    else if key !in s.options.value then false
    else s.options.value[key] == Some(true)
  }

  predicate GoodArgument(arg: Option<string>) {
    arg.Some? && TrimSpace(arg.value) != "" && |arg.value| <= 4096
  }

  function TotalLength(args: seq<Option<string>>): nat {
    if args == [] then 0 else (if args[0].Some? then |args[0].value| else 0) + TotalLength(args[1..])
  }

  /** A missing or empty command is None. */
  function RuntimeCommand(s: Spec): Outcome<Option<seq<string>>> {
    if s.command.Missing? then Ok(None)
    else if s.command.Wrong? then Error
    else
      var args := s.command.value;
      if args == [] then Ok(None)
      else if |args| > 64 || (exists i :: 0 <= i < |args| && !GoodArgument(args[i])) || TotalLength(args) > 16384
      then Error
      else Ok(Some(Values(args)))
  }

  predicate KeyPattern(s: string, dash: char, upper: bool, limit: nat) {
    && 1 <= |s| <= limit
    && forall i :: 0 <= i < |s| ==>
         || 'a' <= s[i] <= 'z' || (upper && ('A' <= s[i] <= 'Z' || s[i] == '_'))
         || (i > 0 && ('0' <= s[i] <= '9' || s[i] == dash))
  }

  predicate EnvironmentKey(s: string) {
    KeyPattern(s, '_', true, 128)
  }

  predicate ResourceKey(s: string) {
    KeyPattern(s, '-', false, 32)
  }

  predicate Hex(c: char) {
    '0' <= c <= '9' || 'a' <= c <= 'f'
  }

  predicate Uuid(s: string) {
    && |s| == 36
    && (forall i :: 0 <= i < 36 ==> if i == 8 || i == 13 || i == 18 || i == 23 then s[i] == '-' else Hex(s[i]))
    && '1' <= s[14] <= '5' && (s[19] == '8' || s[19] == '9' || s[19] == 'a' || s[19] == 'b')
  }

  predicate GoodDependency(d: Option<Dependency>) {
    d.Some? && ResourceKey(d.value.key) && Uuid(d.value.productId) && Slugs.SlugPattern(d.value.serviceSlug)
  }

  predicate DependenciesDistinct(ds: seq<Option<Dependency>>)
    requires AllSome(ds)
  {
    forall i, j :: 0 <= i < j < |ds| ==>
      ds[i].value.key != ds[j].value.key && ds[i].value.serviceSlug != ds[j].value.serviceSlug
  }

  /** Missing dependencies are None, an empty array is not. */
  function RuntimeDependencies(s: Spec): Outcome<Option<seq<Dependency>>> {
    if s.dependencies.Missing? then Ok(None)
    else if s.dependencies.Wrong? then Error
    else
      var ds := s.dependencies.value;
      if |ds| > 32 || (exists i :: 0 <= i < |ds| && !GoodDependency(ds[i])) then Error
      else if !DependenciesDistinct(ds) then Error
      else Ok(Some(Values(ds)))
  }

  function EnvironmentOf(s: Spec): map<string, Option<string>> {
    if s.env.Given? then s.env.value else map[]
  }

  ghost function EnvironmentSize(env: map<string, Option<string>>): nat {
    if env == map[] then 0 else
      var key :| key in env;
      |key| + (if env[key].Some? then |env[key].value| else 0) + EnvironmentSize(env - {key})
  }

  ghost predicate GoodEnvironment(env: map<string, Option<string>>) {
    && |env| <= 128
    && (forall key :: key in env ==> EnvironmentKey(key) && env[key].Some? && |env[key].value| <= 4096)
    && EnvironmentSize(env) <= 32768
  }

  predicate GoodEnvKeys(keys: seq<Option<string>>, env: map<string, Option<string>>) {
    && |keys| <= 128
    && (forall i :: 0 <= i < |keys| ==> keys[i].Some? && EnvironmentKey(keys[i].value) && keys[i].value in env)
    && (forall i, j :: 0 <= i < j < |keys| ==> keys[i] != keys[j])
  }

  predicate GoodMounts(mounts: seq<Mount>) {
    && (forall i :: 0 <= i < |mounts| ==> mounts[i].Mount? && ResourceKey(mounts[i].name) && GoodPath(mounts[i].path))
    && (forall i, j :: 0 <= i < j < |mounts| ==> mounts[i].name != mounts[j].name && mounts[i].path != mounts[j].path)
  }

  predicate GoodPath(path: string) {
    "/" <= path && path != "/" && forall i :: 0 <= i < |path| - 1 ==> !(path[i] == '.' && path[i + 1] == '.')
  }

  const OPTION_KEYS: set<string> := {"cpu", "memory", "dataVolume", "command", "dependencies", "environment"}

  /** ValidateRuntimeSpec accepts the specification. */
  ghost predicate Valid(s: Spec) {
    && s.others
    && RuntimeResources(s, true).Ok? && RuntimeStorage(s, true).Ok?
    && !s.options.Wrong?
    && (s.options.Given? ==> forall key :: key in s.options.value ==> key in OPTION_KEYS && s.options.value[key].Some?)
    && RuntimeCommand(s).Ok?
    && !s.env.Wrong? && GoodEnvironment(EnvironmentOf(s))
    && !s.envKeys.Wrong? && (s.envKeys.Given? ==> GoodEnvKeys(s.envKeys.value, EnvironmentOf(s)))
    && (forall key :: key in EnvironmentOf(s) ==> key !in s.secretKeys)
    && !s.volumes.Wrong? && GoodMounts(MountsOf(s))
    && RuntimeDependencies(s).Ok?
  }
}
