/** The LXC (container) spawner of avocado/plugins/spawners/lxc.py. The lxc
    library is seen only through the container table of an LxcHost and the
    outcomes of its calls, which are given as an LxcOracle; whether the lxc
    Python bindings could be imported is the parameter `lxcAvailable`. */
module LxcSpawner {
  import opened Wrappers
  import opened SpawnersCommon
  import PosixPath
  import Sequences

  /** `LXCSpawner.METHODS`: the spawner only executes commands. */
  const Methods: seq<SpawnMethod> := [StandaloneExecutable]

  const EntryPointCmd := "/root/avocado-runner"
  const TaskRunCmd := "task-run"
  /** The one container every task uses (the source has not yet made the
      name depend on the task). */
  const ContainerId := "c34"
  const CreateTemplate := "download"
  const IpsTimeout := 30
  const BindingsMissing := "LXC python bindings not available on the system"
  const DependencyMissing := "LXC dependency is missing"
  const DistKey := "spawner.lxc.distro"
  const ReleaseKey := "spawner.lxc.release"
  const ArchKey := "spawner.lxc.arch"

  /** The spawner accepts only standalone executables, never `Any`. */
  lemma MethodsDeclared()
    ensures StandaloneExecutable in Methods
    ensures PythonClass !in Methods && Any !in Methods
  {
  }

  /** What `lxc.Container(name)` reports about a container. */
  datatype ContainerState = ContainerState(defined: bool, running: bool)

  /** What the host reports for a container name: its table entry, and
      neither defined nor running for a name it does not know. */
  function StateOf(containers: map<string, ContainerState>, id: string): (s: ContainerState)
    ensures id in containers ==> s == containers[id]
    ensures id !in containers ==> !s.defined && !s.running
  {
    if id in containers then containers[id] else ContainerState(false, false)
  }

  /** Copying the runner into the container and making it executable either
      succeeds or raises one of these. */
  datatype DeployOutcome = Deployed | CopyNotFound | CopyPermissionDenied | CopyOSError(errno: int)

  /** The outcomes of the lxc library calls and file operations `spawn_task`
      makes, decided by the environment. */
  datatype LxcOracle = LxcOracle(
    createOk: bool,      // Container.create(...)
    rootfsPath: string,  // Container.get_config_item("lxc.rootfs.path")
    deploy: DeployOutcome,
    startOk: bool,       // Container.start()
    ipsOk: bool,         // Container.get_ips(timeout=30)
    exitCode: int)       // exit status of the attached entry point

  /** The calls into the container library and the filesystem, in order. */
  datatype LxcCall =
    | Create(id: string, template: string, dist: Option<string>, release: Option<string>, arch: Option<string>)
    | Deploy(source: string, destination: string)
    | Start(id: string)
    | GetIps(id: string, timeout: int)
    | Attach(id: string, argv: seq<string>)

  predicate Creates(calls: seq<LxcCall>) {
    exists c :: c in calls && c.Create?
  }

  predicate Starts(calls: seq<LxcCall>) {
    exists c :: c in calls && c.Start?
  }

  /** The command line run in the container: the runner, its `task-run`
      sub-command, then the task's own arguments in their order. */
  function EntryPointArgs(commandArgs: seq<string>): (argv: seq<string>)
    ensures |argv| == |commandArgs| + 2
    ensures argv[0] == EntryPointCmd && argv[1] == TaskRunCmd
    ensures forall i :: 0 <= i < |commandArgs| ==> argv[i + 2] == commandArgs[i]
  {
    [EntryPointCmd] + ([TaskRunCmd] + commandArgs)
  }

  /** `config.get(key)` on the flattened settings. */
  function Lookup(settings: map<string, string>, key: string): (r: Option<string>)
    ensures r.Some? <==> key in settings
    ensures r.Some? ==> r.value == settings[key]
  {
    if key in settings then Some(settings[key]) else None
  }

  /** `entry_point_cmd.lstrip("/")`. */
  const EntryPointRelative := "root/avocado-runner"

  /** EntryPointRelative is the entry point with its leading '/' stripped. */
  lemma EntryPointRelativeStripped()
    ensures PosixPath.LStrip(EntryPointCmd, '/') == EntryPointRelative
  {
    assert EntryPointCmd[0] == '/' && EntryPointCmd[1..] == EntryPointRelative;
    assert EntryPointRelative[0] != '/';
  }

  /** Where the runner is copied: the container's root filesystem joined
      with the entry point path made relative, so that it lands inside the
      root filesystem. */
  function DeployDestination(rootfsPath: string): string {
    PosixPath.Join(rootfsPath, EntryPointRelative)
  }

  /** The runner is copied under the container's root filesystem, at the
      entry point's path. */
  lemma DeployDestinationInRootfs(rootfsPath: string)
    ensures PosixPath.IsPrefix(rootfsPath, DeployDestination(rootfsPath))
    ensures PosixPath.IsSuffix(EntryPointRelative, DeployDestination(rootfsPath))
    ensures rootfsPath != [] && rootfsPath[|rootfsPath| - 1] != '/' ==>
      DeployDestination(rootfsPath) == rootfsPath + "/" + EntryPointRelative
    ensures rootfsPath == [] || rootfsPath[|rootfsPath| - 1] == '/' ==>
      DeployDestination(rootfsPath) == rootfsPath + EntryPointRelative
  {
    assert !PosixPath.IsAbsolute(EntryPointRelative);
  }

  /** What one `spawn_task` call leaves behind: its result, the host's
      container table, and the record of library calls made so far. */
  datatype SpawnTrace = SpawnTrace(result: Result<bool, Error>,
                                   containers: map<string, ContainerState>, calls: seq<LxcCall>)

  /** The guarded steps of `spawn_task`, from the host's container table and
      call record before the call. Each step that fails ends the spawn;
      only the last one reports success, whatever the exit status of the
      command run in the container. */
  function Spawn(lxcAvailable: bool, containers: map<string, ContainerState>, calls: seq<LxcCall>,
                 settings: map<string, string>, commandArgs: seq<string>, runnerSource: string,
                 oracle: LxcOracle): (t: SpawnTrace)
    ensures !lxcAvailable ==> t == SpawnTrace(Success(false), containers, calls)
    ensures t.result == Success(true) ==> StateOf(t.containers, ContainerId) == ContainerState(true, true)
  {
    if !lxcAvailable then SpawnTrace(Success(false), containers, calls)
    else
      var state := StateOf(containers, ContainerId);
      var create := Create(ContainerId, CreateTemplate, Lookup(settings, DistKey),
                           Lookup(settings, ReleaseKey), Lookup(settings, ArchKey));
      if !state.defined && !oracle.createOk then SpawnTrace(Success(false), containers, calls + [create])
      else
        var created := if state.defined then containers else containers[ContainerId := state.(defined := true)];
        Install(created, if state.defined then calls else calls + [create], commandArgs, runnerSource, oracle)
  }

  /** The steps of `spawn_task` once the container is defined: copy the
      runner into its root filesystem (a missing file or a permission error
      ends the spawn with False, any other OSError propagates), then launch. */
  function Install(containers: map<string, ContainerState>, calls: seq<LxcCall>,
                   commandArgs: seq<string>, runnerSource: string, oracle: LxcOracle): (t: SpawnTrace)
    ensures t.result.Failure? <==> oracle.deploy.CopyOSError?
  {
    var deployed := calls + [Deploy(runnerSource, DeployDestination(oracle.rootfsPath))];
    match oracle.deploy
    case CopyNotFound => SpawnTrace(Success(false), containers, deployed)
    case CopyPermissionDenied => SpawnTrace(Success(false), containers, deployed)
    case CopyOSError(errno) => SpawnTrace(Failure(OSError(errno)), containers, deployed)
    case Deployed => Launch(containers, deployed, commandArgs, oracle)
  }

  /** The steps of `spawn_task` after the runner is deployed: start the
      container unless it runs already, then connect and run the entry
      point. */
  function Launch(containers: map<string, ContainerState>, calls: seq<LxcCall>,
                  commandArgs: seq<string>, oracle: LxcOracle): (t: SpawnTrace)
    ensures t.result.Success?
    ensures t.result.value ==> StateOf(t.containers, ContainerId).running
  {
    var state := StateOf(containers, ContainerId);
    if state.running then Connect(containers, calls, commandArgs, oracle)
    else if !oracle.startOk then SpawnTrace(Success(false), containers, calls + [Start(ContainerId)])
    else Connect(containers[ContainerId := state.(running := true)], calls + [Start(ContainerId)],
                 commandArgs, oracle)
  }

  /** The last steps of `spawn_task`: wait for an address, then run the
      entry point; the spawn succeeds once the command has been attached. */
  function Connect(containers: map<string, ContainerState>, calls: seq<LxcCall>,
                   commandArgs: seq<string>, oracle: LxcOracle): (t: SpawnTrace)
    ensures t.containers == containers
    ensures t.result.Success? && (t.result.value <==> oracle.ipsOk)
  {
    var waited := calls + [GetIps(ContainerId, IpsTimeout)];
    if !oracle.ipsOk then SpawnTrace(Success(false), containers, waited)
    else SpawnTrace(Success(true), containers, waited + [Attach(ContainerId, EntryPointArgs(commandArgs))])
  }

  /** Connect appends its calls to whatever was recorded before. */
  lemma ConnectAppendsCalls(containers: map<string, ContainerState>, calls: seq<LxcCall>, own: seq<LxcCall>,
                            commandArgs: seq<string>, oracle: LxcOracle)
    ensures Connect(containers, calls + own, commandArgs, oracle).calls ==
            calls + Connect(containers, own, commandArgs, oracle).calls
  {
    var ips := GetIps(ContainerId, IpsTimeout);
    var attach := Attach(ContainerId, EntryPointArgs(commandArgs));
    Sequences.ConcatAssoc(calls, own, [ips]);
    Sequences.ConcatAssoc(calls, own + [ips], [attach]);
  }

  /** Launch appends its calls to whatever was recorded before. */
  lemma LaunchAppendsCalls(containers: map<string, ContainerState>, calls: seq<LxcCall>, own: seq<LxcCall>,
                           commandArgs: seq<string>, oracle: LxcOracle)
    ensures Launch(containers, calls + own, commandArgs, oracle).calls ==
            calls + Launch(containers, own, commandArgs, oracle).calls
  {
    var state := StateOf(containers, ContainerId);
    if state.running {
      ConnectAppendsCalls(containers, calls, own, commandArgs, oracle);
    } else {
      Sequences.ConcatAssoc(calls, own, [Start(ContainerId)]);
      ConnectAppendsCalls(containers[ContainerId := state.(running := true)], calls, own + [Start(ContainerId)],
                          commandArgs, oracle);
    }
  }

  /** Install appends its calls to whatever was recorded before. */
  lemma InstallAppendsCalls(containers: map<string, ContainerState>, calls: seq<LxcCall>, own: seq<LxcCall>,
                            commandArgs: seq<string>, runnerSource: string, oracle: LxcOracle)
    ensures Install(containers, calls + own, commandArgs, runnerSource, oracle).calls ==
            calls + Install(containers, own, commandArgs, runnerSource, oracle).calls
  {
    var deploy := Deploy(runnerSource, DeployDestination(oracle.rootfsPath));
    Sequences.ConcatAssoc(calls, own, [deploy]);
    if oracle.deploy.Deployed? {
      LaunchAppendsCalls(containers, calls, own + [deploy], commandArgs, oracle);
    }
  }

  /** The calls one spawn makes come after those made before it, whatever
      they were. */
  lemma SpawnAppendsCalls(lxcAvailable: bool, containers: map<string, ContainerState>, calls: seq<LxcCall>,
                          settings: map<string, string>, commandArgs: seq<string>, runnerSource: string,
                          oracle: LxcOracle)
    ensures Spawn(lxcAvailable, containers, calls, settings, commandArgs, runnerSource, oracle).calls ==
            calls + Spawn(lxcAvailable, containers, [], settings, commandArgs, runnerSource, oracle).calls
  {
    var state := StateOf(containers, ContainerId);
    var none: seq<LxcCall> := [];
    if lxcAvailable && (state.defined || oracle.createOk) {
      var create := Create(ContainerId, CreateTemplate, Lookup(settings, DistKey),
                           Lookup(settings, ReleaseKey), Lookup(settings, ArchKey));
      var created := if state.defined then containers else containers[ContainerId := state.(defined := true)];
      if state.defined {
        assert calls + none == calls;
        InstallAppendsCalls(created, calls, none, commandArgs, runnerSource, oracle);
      } else {
        assert none + [create] == [create];
        InstallAppendsCalls(created, calls, [create], commandArgs, runnerSource, oracle);
      }
    }
  }

  /** Only the spawner's own container is ever created or started: every
      other entry of the host's table is left as it was. */
  lemma SpawnTouchesOnlyItsContainer(lxcAvailable: bool, containers: map<string, ContainerState>,
                                     calls: seq<LxcCall>, settings: map<string, string>,
                                     commandArgs: seq<string>, runnerSource: string, oracle: LxcOracle,
                                     id: string)
    requires id != ContainerId
    ensures StateOf(Spawn(lxcAvailable, containers, calls, settings, commandArgs, runnerSource, oracle).containers, id)
            == StateOf(containers, id)
  {
  }

  /** `create` is called exactly when the bindings are present and the
      container is not yet defined. */
  lemma SpawnCreatesLazily(lxcAvailable: bool, containers: map<string, ContainerState>,
                           settings: map<string, string>, commandArgs: seq<string>,
                           runnerSource: string, oracle: LxcOracle)
    ensures var t := Spawn(lxcAvailable, containers, [], settings, commandArgs, runnerSource, oracle);
      Creates(t.calls) <==> lxcAvailable && !StateOf(containers, ContainerId).defined
  {
    var t := Spawn(lxcAvailable, containers, [], settings, commandArgs, runnerSource, oracle);
    if lxcAvailable && !StateOf(containers, ContainerId).defined {
      assert t.calls[0].Create?;
    }
  }

  /** `start` is called exactly when the spawn gets past deployment and the
      container is not running yet. */
  lemma SpawnStartsLazily(lxcAvailable: bool, containers: map<string, ContainerState>,
                          settings: map<string, string>, commandArgs: seq<string>,
                          runnerSource: string, oracle: LxcOracle)
    ensures var state := StateOf(containers, ContainerId);
      var t := Spawn(lxcAvailable, containers, [], settings, commandArgs, runnerSource, oracle);
      Starts(t.calls) <==>
        lxcAvailable && (state.defined || oracle.createOk) && oracle.deploy.Deployed? && !state.running
  {
    var state := StateOf(containers, ContainerId);
    var t := Spawn(lxcAvailable, containers, [], settings, commandArgs, runnerSource, oracle);
    if lxcAvailable && (state.defined || oracle.createOk) && oracle.deploy.Deployed? && !state.running {
      var k := if state.defined then 1 else 2;
      assert t.calls[k] == Start(ContainerId);
    }
  }

  /** The spawn succeeds exactly when every step succeeds: the bindings are
      there, the container is defined or gets created, the runner is
      deployed, the container is running or gets started, and it has an
      address; it then has attached the runner's command line as its last
      call. It raises only for a deployment error other than not-found or
      permission. */
  lemma SpawnSucceeds(lxcAvailable: bool, containers: map<string, ContainerState>,
                      settings: map<string, string>, commandArgs: seq<string>,
                      runnerSource: string, oracle: LxcOracle)
    ensures var state := StateOf(containers, ContainerId);
      var t := Spawn(lxcAvailable, containers, [], settings, commandArgs, runnerSource, oracle);
      && (t.result == Success(true) <==>
           lxcAvailable && (state.defined || oracle.createOk) && oracle.deploy.Deployed?
           && (state.running || oracle.startOk) && oracle.ipsOk)
      && (t.result.Failure? <==>
           lxcAvailable && (state.defined || oracle.createOk) && oracle.deploy.CopyOSError?)
      && (t.result == Success(true) ==>
           t.calls[|t.calls| - 1] == Attach(ContainerId, EntryPointArgs(commandArgs)))
  {
  }

  /** Re-spawning against a defined and running container neither creates
      nor starts it, and leaves the host's containers as they were. */
  lemma RespawnDoesNotProvision(lxcAvailable: bool, containers: map<string, ContainerState>,
                                settings: map<string, string>, commandArgs: seq<string>,
                                runnerSource: string, oracle: LxcOracle)
    requires StateOf(containers, ContainerId) == ContainerState(true, true)
    ensures var t := Spawn(lxcAvailable, containers, [], settings, commandArgs, runnerSource, oracle);
      !Creates(t.calls) && !Starts(t.calls) && t.containers == containers
  {
  }

  /** After a successful spawn, a later spawn, whatever the outcomes of its
      calls, provisions nothing. */
  lemma SpawnTwiceProvisionsOnce(lxcAvailable: bool, containers: map<string, ContainerState>,
                                 settings: map<string, string>, commandArgs: seq<string>,
                                 runnerSource: string, first: LxcOracle, second: LxcOracle)
    requires Spawn(lxcAvailable, containers, [], settings, commandArgs, runnerSource, first).result == Success(true)
    ensures var t1 := Spawn(lxcAvailable, containers, [], settings, commandArgs, runnerSource, first);
      var t2 := Spawn(lxcAvailable, t1.containers, [], settings, commandArgs, runnerSource, second);
      !Creates(t2.calls) && !Starts(t2.calls)
  {
    var t1 := Spawn(lxcAvailable, containers, [], settings, commandArgs, runnerSource, first);
    RespawnDoesNotProvision(lxcAvailable, t1.containers, settings, commandArgs, runnerSource, second);
  }

  /** Whether the spawn succeeds does not depend on the exit status of the
      command run in the container. */
  lemma SpawnIgnoresExitCode(lxcAvailable: bool, containers: map<string, ContainerState>,
                             settings: map<string, string>, commandArgs: seq<string>,
                             runnerSource: string, oracle: LxcOracle, exitCode: int)
    ensures Spawn(lxcAvailable, containers, [], settings, commandArgs, runnerSource, oracle).result ==
            Spawn(lxcAvailable, containers, [], settings, commandArgs, runnerSource, oracle.(exitCode := exitCode)).result
  {
  }

  /** The host's containers, and a record of the library calls made on them. */
  class LxcHost {
    var containers: map<string, ContainerState>
    ghost var calls: seq<LxcCall>

    constructor (containers: map<string, ContainerState>)
      ensures this.containers == containers && calls == []
    {
      this.containers := containers;
      calls := [];
    }

    /** `Container.create(template, flags, {dist, release, arch})`: on
        success the container becomes defined. */
    method Create(id: string, dist: Option<string>, release: Option<string>, arch: Option<string>, ok: bool)
      returns (created: bool)
      modifies this
      ensures created == ok
      ensures calls == old(calls) + [LxcCall.Create(id, CreateTemplate, dist, release, arch)]
      ensures containers == if ok then old(containers)[id := StateOf(old(containers), id).(defined := true)]
                            else old(containers)
    {
      calls := calls + [LxcCall.Create(id, CreateTemplate, dist, release, arch)];
      created := ok;
      if ok {
        containers := containers[id := StateOf(containers, id).(defined := true)];
      }
    }

    /** `shutil.copy2` of the runner into the root filesystem, then
        `os.chmod`: the containers are not affected. */
    method Deploy(source: string, destination: string, outcome: DeployOutcome) returns (r: DeployOutcome)
      modifies this`calls
      ensures r == outcome
      ensures calls == old(calls) + [LxcCall.Deploy(source, destination)]
    {
      calls := calls + [LxcCall.Deploy(source, destination)];
      r := outcome;
    }

    /** `Container.start()`: on success a defined container runs. */
    method Start(id: string, ok: bool) returns (started: bool)
      modifies this
      ensures started == ok
      ensures calls == old(calls) + [LxcCall.Start(id)]
      ensures containers == if ok then old(containers)[id := StateOf(old(containers), id).(running := true)]
                            else old(containers)
    {
      calls := calls + [LxcCall.Start(id)];
      started := ok;
      if ok {
        containers := containers[id := StateOf(containers, id).(running := true)];
      }
    }

    /** `Container.get_ips(timeout)`: whether the container got an address. */
    method GetIps(id: string, timeout: int, ok: bool) returns (connected: bool)
      modifies this`calls
      ensures connected == ok
      ensures calls == old(calls) + [LxcCall.GetIps(id, timeout)]
    {
      calls := calls + [LxcCall.GetIps(id, timeout)];
      connected := ok;
    }

    /** `Container.attach(...)` of a command, then waiting for its exit
        status. */
    method Attach(id: string, argv: seq<string>, exitCode: int) returns (status: int)
      modifies this`calls
      ensures status == exitCode
      ensures calls == old(calls) + [LxcCall.Attach(id, argv)]
    {
      calls := calls + [LxcCall.Attach(id, argv)];
      status := exitCode;
    }
  }

  /** One attempt to run a task: the task's command arguments and
      requirements, and what the spawner records on it. */
  class RuntimeTask {
    const commandArgs: seq<string>
    const requirements: seq<string>
    var spawnerHandle: Option<string>
    var status: Option<string>

    constructor (commandArgs: seq<string>, requirements: seq<string>)
      ensures this.commandArgs == commandArgs && this.requirements == requirements
      ensures spawnerHandle == None && status == None
    {
      this.commandArgs := commandArgs;
      this.requirements := requirements;
      spawnerHandle := None;
      status := None;
    }
  }

  /** `LXCSpawner.spawn_task`. The result, the calls made and the container's
      new state are those of Spawn; the task's handle becomes the container's
      name on success only, and its status is written only when the lxc
      bindings are missing. */
  method SpawnTask(task: RuntimeTask, host: LxcHost, lxcAvailable: bool, settings: map<string, string>,
                   runnerSource: string, oracle: LxcOracle) returns (r: Result<bool, Error>)
    modifies task, host
    ensures var t := Spawn(lxcAvailable, old(host.containers), old(host.calls), settings,
                           task.commandArgs, runnerSource, oracle);
      r == t.result && host.containers == t.containers && host.calls == t.calls
    ensures task.spawnerHandle == if r == Success(true) then Some(ContainerId) else old(task.spawnerHandle)
    ensures task.status == if lxcAvailable then old(task.status) else Some(BindingsMissing)
  {
    var argv := task.commandArgs;
    argv := [TaskRunCmd] + argv;
    argv := [EntryPointCmd] + argv;
    var dist := Lookup(settings, DistKey);
    var release := Lookup(settings, ReleaseKey);
    var arch := Lookup(settings, ArchKey);

    if !lxcAvailable {
      task.status := Some(BindingsMissing);
      return Success(false);
    }

    ghost var spec := Spawn(lxcAvailable, host.containers, host.calls, settings, task.commandArgs,
                            runnerSource, oracle);
    var state := StateOf(host.containers, ContainerId);
    if !state.defined {
      var created := host.Create(ContainerId, dist, release, arch, oracle.createOk);
      if !created {
        return Success(false);
      }
    }
    assert spec == Install(host.containers, host.calls, task.commandArgs, runnerSource, oracle);
    r := InstallRunner(task, host, argv, runnerSource, oracle);
  }

  /** The rest of `spawn_task` once the container is defined: deploy the
      runner, start the container if needed, wait for an address and run
      the entry point, recording the handle only on success. */
  method InstallRunner(task: RuntimeTask, host: LxcHost, argv: seq<string>, runnerSource: string,
                       oracle: LxcOracle) returns (r: Result<bool, Error>)
    requires argv == EntryPointArgs(task.commandArgs)
    modifies task`spawnerHandle, host
    ensures var t := Install(old(host.containers), old(host.calls), task.commandArgs, runnerSource, oracle);
      r == t.result && host.containers == t.containers && host.calls == t.calls
    ensures task.spawnerHandle == if r == Success(true) then Some(ContainerId) else old(task.spawnerHandle)
  {
    ghost var spec := Install(host.containers, host.calls, task.commandArgs, runnerSource, oracle);
    var rootfs := oracle.rootfsPath;
    var deployed := host.Deploy(runnerSource, DeployDestination(rootfs), oracle.deploy);
    match deployed {
      case CopyNotFound => return Success(false);
      case CopyPermissionDenied => return Success(false);
      case CopyOSError(errno) => return Failure(OSError(errno));
      case Deployed =>
    }
    assert spec == Launch(host.containers, host.calls, task.commandArgs, oracle);

    if !StateOf(host.containers, ContainerId).running {
      var started := host.Start(ContainerId, oracle.startOk);
      if !started {
        return Success(false);
      }
    }
    assert spec == Connect(host.containers, host.calls, task.commandArgs, oracle);

    var connected := host.GetIps(ContainerId, IpsTimeout, oracle.ipsOk);
    if !connected {
      return Success(false);
    }

    var exitCode := host.Attach(ContainerId, argv, oracle.exitCode);
    task.spawnerHandle := Some(ContainerId);
    return Success(true);
  }

  /** What one liveness probe sees: the host's containers, and the exit
      status `pgrep avocado-runner` would have inside the container. */
  datatype Observation = Observation(containers: map<string, ContainerState>, pgrepExit: int)

  /** The decision of `is_task_alive`: a task without a handle is not alive;
      without the lxc bindings the probe raises; otherwise the task is alive
      exactly when its container is defined, running, and `pgrep` finds the
      runner in it. */
  function Liveness(handle: Option<string>, lxcAvailable: bool, obs: Observation): (r: Result<bool, Error>)
    ensures handle.None? ==> r == Success(false)
    ensures handle.Some? && !lxcAvailable ==> r == Failure(RuntimeError(DependencyMissing))
    ensures handle.Some? && lxcAvailable ==>
      r.Success? &&
      (r.value <==> StateOf(obs.containers, handle.value).defined
                    && StateOf(obs.containers, handle.value).running && obs.pgrepExit == 0)
  {
    if handle.None? then Success(false)
    else if !lxcAvailable then Failure(RuntimeError(DependencyMissing))
    else
      var container := StateOf(obs.containers, handle.value);
      if !container.defined then Success(false)
      else if !container.running then Success(false)
      else Success(obs.pgrepExit == 0)
  }

  /** Right after a successful spawn the task's container is defined and
      running, so a probe finds the task alive exactly when `pgrep` finds
      the runner. */
  lemma SpawnedTaskProbe(lxcAvailable: bool, containers: map<string, ContainerState>, calls: seq<LxcCall>,
                         settings: map<string, string>, commandArgs: seq<string>, runnerSource: string,
                         oracle: LxcOracle, pgrepExit: int)
    requires Spawn(lxcAvailable, containers, calls, settings, commandArgs, runnerSource, oracle).result == Success(true)
    ensures var t := Spawn(lxcAvailable, containers, calls, settings, commandArgs, runnerSource, oracle);
      Liveness(Some(ContainerId), lxcAvailable, Observation(t.containers, pgrepExit)) == Success(pgrepExit == 0)
  {
  }

  /** `LXCSpawner.is_task_alive`: the probe of Liveness; on the path that
      raises it first writes the missing-bindings message to the status. */
  method IsTaskAlive(task: RuntimeTask, lxcAvailable: bool, obs: Observation) returns (r: Result<bool, Error>)
    modifies task`status
    ensures r == Liveness(task.spawnerHandle, lxcAvailable, obs)
    ensures task.status == if r.Failure? then Some(BindingsMissing) else old(task.status)
  {
    if task.spawnerHandle.None? {
      return Success(false);
    }
    if !lxcAvailable {
      task.status := Some(BindingsMissing);
      return Failure(RuntimeError(DependencyMissing));
    }
    var container := StateOf(obs.containers, task.spawnerHandle.value);
    if !container.defined {
      return Success(false);
    }
    if !container.running {
      return Success(false);
    }
    return Success(obs.pgrepExit == 0);
  }

  /** How `wait_task` ends after the probes it was given: it returned, or a
      probe raised, after that many probes; or every probe found the task
      alive and it would keep polling. */
  datatype WaitOutcome = Returned(probes: nat) | Raised(error: Error, probes: nat) | StillPolling

  /** `LXCSpawner.wait_task`: probe, one observation after another, until a
      probe reports the task not alive. There is no bound on the number of
      probes: any prefix of alive reports is followed by another probe. */
  method WaitTask(task: RuntimeTask, lxcAvailable: bool, observations: seq<Observation>) returns (w: WaitOutcome)
    modifies task`status
    ensures task.spawnerHandle == old(task.spawnerHandle)
    ensures w.Returned? ==>
      1 <= w.probes <= |observations|
      && Liveness(task.spawnerHandle, lxcAvailable, observations[w.probes - 1]) == Success(false)
    ensures w.Raised? ==>
      1 <= w.probes <= |observations|
      && Liveness(task.spawnerHandle, lxcAvailable, observations[w.probes - 1]) == Failure(w.error)
      && task.status == Some(BindingsMissing)
    ensures !w.Raised? ==> task.status == old(task.status)
    ensures forall j :: 0 <= j < (if w.StillPolling? then |observations| else w.probes - 1) ==>
      Liveness(task.spawnerHandle, lxcAvailable, observations[j]) == Success(true)
  {
    var i := 0;
    while i < |observations|
      invariant 0 <= i <= |observations|
      invariant task.status == old(task.status)
      invariant forall j :: 0 <= j < i ==> Liveness(task.spawnerHandle, lxcAvailable, observations[j]) == Success(true)
    {
      var alive := IsTaskAlive(task, lxcAvailable, observations[i]);
      match alive {
        case Failure(e) => return Raised(e, i + 1);
        case Success(b) =>
          if !b {
            return Returned(i + 1);
          }
      }
      i := i + 1;
    }
    return StillPolling;
  }

  /** `LXCSpawner.check_task_requirements`: any requirements are accepted. */
  function CheckTaskRequirements(task: RuntimeTask): (ok: bool)
    ensures ok
  {
    if task.requirements == [] then true else true
  }
}
