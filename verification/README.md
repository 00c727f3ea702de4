# Avocado task spawners, modelled in Dafny

This project models the task-spawning core of the Avocado test framework:

- the spawner base class, with its spawn methods and the collection of a task's output files from a results directory;
- the LXC (container) spawner, which provisions a container, deploys the task runner into it, starts it, runs the task, and probes and waits for the task;
- two helpers of the job layer: `prepend_base_path` and `resolutions_to_tasks`.

The lxc library, the filesystem and the process layer are not visible here. They appear as data:

- The filesystem is a map from path strings to regular files (bytes) or directories (entry names in listing order).
- The LXC host is a class `LxcHost`. It holds a table from container names to `{defined, running}` and a ghost record of the library calls made, in order.
- The outcome of each library call (create, copy and chmod, start, get_ips, the attached command's exit status) is a field of an `LxcOracle` value.
- What a liveness probe sees is an `Observation`: the container table, plus the exit status `pgrep avocado-runner` would have.
- Whether the lxc Python bindings could be imported is a parameter, `lxcAvailable`.
- Several external resolvers are function parameters: the job results directory, the safe-path encoding of a task id, `~` expansion, the distribution location, and the tag filter.
- The path of the runner to copy, which `spawn_task` computes from the location of its own module (lxc.py:141-143), is the parameter `runnerSource`.
- The container's root filesystem, as `c.get_config_item("lxc.rootfs.path")` reports it (lxc.py:144), is the oracle field `LxcOracle.rootfsPath`.

Files:

- `wrappers.dfy`: Option and Result.
- `sequences.dfy`: associativity of sequence concatenation, used by the proofs.
- `posix_path.dfy`: `os.path.join`, `lstrip`, and prefix and suffix tests.
- `spawners_common.dfy`: avocado/core/spawners/common.py.
- `lxc_spawner.dfy`: avocado/plugins/spawners/lxc.py.
- `core_utils.dfy`: avocado/core/utils.py.

`spawn_task` is modelled twice:

- `LxcSpawner.Spawn` is a function. It takes the host's container table and call record before the call, and gives the result, the new table and the new record.
- `Spawn` is split into the steps of the method: `Install` (copy the runner), `Launch` (start the container) and `Connect` (wait for an address, then attach).
- `LxcSpawner.SpawnTask` is the imperative method. It updates the `RuntimeTask` and the `LxcHost` in place. Its contract equates what it does with `Spawn`. It hands the steps after container creation to `InstallRunner`, whose contract is stated with `Install`.

The properties are proved as lemmas about `Spawn`.

Three facts about the LXC spawner's code, which the model keeps as written:

- The code uses one literal container name, `"c34"`, for every task, so all tasks share one container.
- It writes the task's handle on every successful spawn, not only on the first.
- It reads the distribution from the setting `spawner.lxc.distro`, while the option is registered under the key `dist`. The settings are a map, and the lookup uses the key the code reads.

## Model

| member | source | states |
|---|---|---|
| SpawnersCommon.SpawnMethodsDistinct | avocado/core/spawners/common.py:13-30 | The three spawn methods are pairwise distinct, and the base class declares an empty method list. |
| SpawnersCommon.BytesFromFile | avocado/core/spawners/common.py:32-43 | Succeeds exactly for an existing, non-empty regular file, and then yields one chunk: the whole contents. A missing file raises FileNotFoundError. |
| SpawnersCommon.Pairs | avocado/core/spawners/common.py:63-64 | Every chunk read from a file is emitted as (file name, chunk), in order. |
| SpawnersCommon.Emit | avocado/core/spawners/common.py:62-64 | One entry yields the single pair (name, full contents) if it is a regular file of non-zero size, and nothing otherwise. |
| SpawnersCommon.CollectOutputs | avocado/core/spawners/common.py:61-64 | There are never more pairs than entries in the listing. |
| SpawnersCommon.CollectOutputsSound | avocado/core/spawners/common.py:61-64 | Every emitted pair names an entry of the listing that is a non-empty regular file, and carries that file's full contents. |
| SpawnersCommon.CollectOutputsComplete | avocado/core/spawners/common.py:61-64 | Every non-empty regular file of the listing appears in the output, paired with its contents. |
| SpawnersCommon.CollectOutputsAppend | avocado/core/spawners/common.py:61-64 | Output over a listing split in two is the output of the first part followed by that of the second. The output follows listing order. |
| SpawnersCommon.CollectOutputsSingle | avocado/core/spawners/common.py:62-64 | One entry yields exactly one pair if it is a non-empty regular file, and nothing otherwise. Directories and empty files are skipped. |
| SpawnersCommon.DataPointer | avocado/core/spawners/common.py:58 | Defines the pointer file's path. Its layout is stated by DataPointerLayout. |
| SpawnersCommon.DataPointerLayout | avocado/core/spawners/common.py:58 | The pointer file is `<results dir>/test-results/<task id>/data`. It starts with the results directory followed by '/test-results/', ends with '/data', and the task id can be read back from between the two. |
| SpawnersCommon.DecodeText | avocado/core/spawners/common.py:59 | The pointer file is decoded one character per byte, each character having its byte's code. |
| SpawnersCommon.IsSpace | avocado/core/spawners/common.py:59 | Python's `str.isspace`. Its ASCII part is stated by IsSpaceAscii. |
| SpawnersCommon.IsSpaceAscii | avocado/core/spawners/common.py:59 | The ASCII white space of `str.isspace` is the blank, tab to carriage return, and 0x1C to 0x1F. No printable ASCII character is white space. |
| SpawnersCommon.RStrip | avocado/core/spawners/common.py:59 | The source path is a prefix of the line, ending in a non-space character. Everything removed is white space. |
| SpawnersCommon.FirstLine | avocado/core/spawners/common.py:59 | The line read is the longest prefix without a line terminator. |
| SpawnersCommon.StreamOutput | avocado/core/spawners/common.py:45-66 | A missing pointer file raises FileNotFoundError unconverted, because its open is outside the try. Success needs a readable pointer file. A SpawnerException carries "Task not found: " and the text of the FileNotFoundError for a missing path. |
| SpawnersCommon.StreamOutputSource | avocado/core/spawners/common.py:56-66 | The source directory is the pointer file's first line, right-stripped and `~`-expanded. If it is a directory, the result is the collection over its listing. If it is missing, the result is SpawnerException with nothing yielded. If it is a file, NotADirectoryError passes through. |
| SpawnersCommon.EmptyFilesAreSkipped | avocado/core/spawners/common.py:61-64 | A listing of a non-empty file followed by an empty one yields exactly one pair: the first file's name and contents. |
| SpawnersCommon.BaseIsTaskAlive | avocado/core/spawners/common.py:68-70 | The base `is_task_alive` always raises NotImplementedError. |
| SpawnersCommon.BaseSpawnTask | avocado/core/spawners/common.py:72-73 | The base `spawn_task` always raises NotImplementedError. |
| LxcSpawner.MethodsDeclared | avocado/plugins/spawners/lxc.py:74 | The LXC spawner declares STANDALONE_EXECUTABLE only, and never ANY. |
| LxcSpawner.StateOf | avocado/plugins/spawners/lxc.py:101-105 | `lxc.Container(name)` reports the host's table entry for a known name. For an unknown name, it reports neither defined nor running. |
| LxcSpawner.EntryPointArgs | avocado/plugins/spawners/lxc.py:112-115 | The command line is '/root/avocado-runner', then 'task-run', then the task's own arguments in their original order. |
| LxcSpawner.Lookup | avocado/plugins/spawners/lxc.py:117-120 | `config.get(key)` returns the value stored under the key, and None exactly when the key is absent. |
| LxcSpawner.EntryPointRelativeStripped | avocado/plugins/spawners/lxc.py:144-145 | Stripping the leading '/' from the entry point gives 'root/avocado-runner'. |
| LxcSpawner.DeployDestinationInRootfs | avocado/plugins/spawners/lxc.py:143-145 | `DeployDestination` puts the runner under the container's root filesystem, at the entry point's path. The result is rootfs + '/' + 'root/avocado-runner', or with no '/' added when the rootfs path is empty or ends in '/'. |
| LxcSpawner.Spawn | avocado/plugins/spawners/lxc.py:110-190 | Without the bindings, nothing changes and the result is False. A successful spawn leaves the container defined and running. |
| LxcSpawner.Install | avocado/plugins/spawners/lxc.py:141-152 | Once the container is defined, the spawn raises iff the copy fails with an OSError other than FileNotFoundError or PermissionError. |
| LxcSpawner.Launch | avocado/plugins/spawners/lxc.py:154-190 | After deployment the spawn never raises, and it returns True only with the container running. |
| LxcSpawner.Connect | avocado/plugins/spawners/lxc.py:160-190 | The final steps succeed exactly when the container gets an address. They leave the container table unchanged. |
| LxcSpawner.ConnectAppendsCalls | avocado/plugins/spawners/lxc.py:160-170 | The address wait and the attach are appended after the calls made before them. |
| LxcSpawner.LaunchAppendsCalls | avocado/plugins/spawners/lxc.py:154-170 | The start, address wait and attach are appended after the calls made before them. |
| LxcSpawner.InstallAppendsCalls | avocado/plugins/spawners/lxc.py:141-170 | The copy and everything after it are appended after the calls made before them. |
| LxcSpawner.SpawnAppendsCalls | avocado/plugins/spawners/lxc.py:110-190 | The calls a spawn makes come after the calls made before it, whatever those were. |
| LxcSpawner.SpawnTouchesOnlyItsContainer | avocado/plugins/spawners/lxc.py:127-158 | Only container "c34" is created or started. Every other entry of the host's table is unchanged. |
| LxcSpawner.SpawnCreatesLazily | avocado/plugins/spawners/lxc.py:122-136 | `create` is called iff the bindings are present and the container is not defined. |
| LxcSpawner.SpawnStartsLazily | avocado/plugins/spawners/lxc.py:122-158 | `start` is called iff the bindings are present, the container is defined or gets created, the runner is deployed, and the container is not running. |
| LxcSpawner.SpawnSucceeds | avocado/plugins/spawners/lxc.py:122-190 | The spawn returns True iff every guarded step succeeds, and the last call is then the attach of the runner's command line. It raises only for a deployment OSError other than FileNotFoundError or PermissionError. |
| LxcSpawner.RespawnDoesNotProvision | avocado/plugins/spawners/lxc.py:129-158 | Spawning against a defined, running container neither creates nor starts it, and leaves the table as it was. |
| LxcSpawner.SpawnTwiceProvisionsOnce | avocado/plugins/spawners/lxc.py:129-158 | After a successful spawn, a second spawn creates and starts nothing, whatever its call outcomes are. |
| LxcSpawner.SpawnIgnoresExitCode | avocado/plugins/spawners/lxc.py:170-190 | The result of a spawn does not depend on the exit status of the command run in the container. |
| LxcSpawner.LxcHost.Create | avocado/plugins/spawners/lxc.py:130-136 | `create` is recorded, and on success the container becomes defined. |
| LxcSpawner.LxcHost.Deploy | avocado/plugins/spawners/lxc.py:141-152 | The copy is recorded with its source and destination. Its outcome is the environment's. |
| LxcSpawner.LxcHost.Start | avocado/plugins/spawners/lxc.py:154-158 | `start` is recorded, and on success the container runs. |
| LxcSpawner.LxcHost.GetIps | avocado/plugins/spawners/lxc.py:160-164 | The address wait (30-second timeout) is recorded. |
| LxcSpawner.LxcHost.Attach | avocado/plugins/spawners/lxc.py:83-88 | The attached command line is recorded, and its exit status is returned. |
| LxcSpawner.SpawnTask | avocado/plugins/spawners/lxc.py:110-190 | The result, the new container table and the call record are those of Spawn. The handle becomes "c34" only when True is returned, and is unchanged otherwise. The status is set to the missing-bindings message exactly when the bindings are missing. |
| LxcSpawner.InstallRunner | avocado/plugins/spawners/lxc.py:141-190 | Once the container is defined, the result, table and call record are those of Install. The handle becomes "c34" only when True is returned. |
| LxcSpawner.Liveness | avocado/plugins/spawners/lxc.py:90-108 | No handle gives False. A handle without the bindings raises RuntimeError. Otherwise the task is alive iff its container is defined, is running, and `pgrep` exits with 0. |
| LxcSpawner.SpawnedTaskProbe | avocado/plugins/spawners/lxc.py:101-108 | Right after a successful spawn, a probe finds the task alive iff `pgrep` exits with 0. |
| LxcSpawner.IsTaskAlive | avocado/plugins/spawners/lxc.py:90-108 | The result is Liveness of the task's handle. The status is written, with the missing-bindings message, only on the path that raises. |
| LxcSpawner.WaitTask | avocado/plugins/spawners/lxc.py:192-197 | The wait returns at the first probe that reports not alive. Every earlier probe reported alive. If no probe reports not alive, it keeps polling. |
| LxcSpawner.CheckTaskRequirements | avocado/plugins/spawners/lxc.py:199-205 | The requirement check always succeeds. |
| PosixPath.Join | avocado/core/utils.py:38 | `os.path.join`: an absolute second path replaces the first. Otherwise the result is first + '/' + second when the first path is non-empty and does not end in '/', and first + second when it is empty or ends in '/'. |
| PosixPath.LStrip | avocado/plugins/spawners/lxc.py:145 | `str.lstrip` of one character: the result is a suffix with no leading copy of the character, and everything removed is that character. |
| CoreUtils.HasBasePrefix | avocado/core/utils.py:36 | The test `expanded.startswith(('/', '~', '.'))`. Its meaning is stated by HasBasePrefixStartsWith. |
| CoreUtils.HasBasePrefixStartsWith | avocado/core/utils.py:36 | A path passes the test iff it starts with "/", "~" or ".". |
| CoreUtils.PrependBasePath | avocado/core/utils.py:34-39 | The expanded value is returned unchanged iff it starts with '/', '~' or '.'. Otherwise the result is join(distribution location, 'avocado', expanded). The expanded value is always a suffix of the result. |
| CoreUtils.PrependBasePathIdempotent | avocado/core/utils.py:34-39 | With an absolute distribution location and a well-behaved `~` expansion, applying it twice is the same as applying it once. |
| CoreUtils.FiltersByTags | avocado/core/utils.py:76 | Whether `filter_by_tags` is truthy. Stated by TagFilterAppliesWhenTruthy. |
| CoreUtils.Keeps | avocado/core/utils.py:76-81 | Whether a runnable passes the tag test. Stated by TagFilterAppliesWhenTruthy. |
| CoreUtils.TagFilterAppliesWhenTruthy | avocado/core/utils.py:76-81 | Absent or empty tags do not filter, and every runnable is kept. Non-empty tags keep a runnable iff `filter_test_tags_runnable` accepts it with the configured include-empty options. |
| CoreUtils.MakeTask | avocado/core/utils.py:82 | A task carries its runnable, identifier None, and the one-element list of the configured status server. |
| CoreUtils.RunnableTasks | avocado/core/utils.py:75-82 | One resolution yields at most one task per runnable. Every task has no identifier and reports to the configured status server only. |
| CoreUtils.ResolutionTasks | avocado/core/utils.py:73-82 | A resolution that is not SUCCESS yields no task. Otherwise it yields at most one task per runnable. |
| CoreUtils.ExpectedTasks | avocado/core/utils.py:67-83 | Every task of the conversion has no identifier and reports to the configured status server only. Its contents and order are stated by the lemmas below. |
| CoreUtils.SuccessfulRunnables | avocado/core/utils.py:72-75 | Lists the runnables of successful resolutions. Its contents are stated by SuccessfulRunnablesMembership. |
| CoreUtils.SuccessfulRunnablesMembership | avocado/core/utils.py:72-75 | A runnable is listed iff some SUCCESS resolution found it. |
| CoreUtils.RunnableTasksStep | avocado/core/utils.py:75-82 | One more runnable adds its task at the end exactly when the runnable is kept. |
| CoreUtils.ExpectedTasksStep | avocado/core/utils.py:72-83 | One more resolution adds its tasks at the end. |
| CoreUtils.ResolutionsToTasks | avocado/core/utils.py:42-83 | The loop with `continue` builds exactly the tasks of ExpectedTasks: successful resolutions only, tag-filtered when tags are set, in resolution order then runnable order. |
| CoreUtils.AppendRunnableTasks | avocado/core/utils.py:75-82 | The inner loop appends to the tasks so far exactly the tasks of RunnableTasks for that resolution's runnables. |
| CoreUtils.ExpectedTasksAppend | avocado/core/utils.py:72-83 | The tasks of a list split in two are those of the first part followed by those of the second. |
| CoreUtils.FailedResolutionIgnored | avocado/core/utils.py:73-74 | Removing a resolution that is not SUCCESS does not change the tasks. |
| CoreUtils.RunnableTasksMembership | avocado/core/utils.py:75-82 | A task is produced from a runnable list iff it is made from a runnable that passes the tag filter, or from any runnable when tags are not set. |
| CoreUtils.ExpectedTasksMembership | avocado/core/utils.py:72-83 | A task is produced iff it comes from the runnables of some successful resolution. |
| CoreUtils.ExpectedTasksBounded | avocado/core/utils.py:72-83 | There are at most as many tasks as runnables in successful resolutions. |
| CoreUtils.RunnableTasksUnfiltered | avocado/core/utils.py:75-82 | With tags unset or empty, every runnable becomes a task, in order. |
| CoreUtils.ExpectedTasksUnfiltered | avocado/core/utils.py:75-82 | With tags unset or empty, the tasks are exactly the runnables of the successful resolutions, in order. |

## Left out

- LXCStreamsFile (temporary files for the attached command's output) is not modelled. Those temporary files are OS plumbing. Note that its `__init__` sets `fd_out` and `path_out`, while `fileno` and `read` use `fd` and `path`, which only `__enter__` sets.
- LXCSpawnerInit (registering `dist`, `release` and `arch` in the settings registry) is not modelled. The settings are a plain map.
- The lxc library's semantics are not modelled. Each call's outcome comes from LxcOracle. A failed `create` or `start` is assumed to leave the container table as it was. The LXC_CREATE_QUIET flag, `state` and `init_pid` are not recorded.
- The asynchronous plumbing is not modelled: `run_in_executor`/`os.waitpid` and `asyncio.sleep` between probes. The steps run sequentially.
- The synchronous `run_container_cmd` used by the probe is reduced to the `pgrep` exit status carried by each Observation.
- WaitTask: `wait_task`'s unbounded `while True` poll is modelled over a finite sequence of observations. The outcome StillPolling means that every given probe reported alive and the source would go on polling.
- Logging (LOG_JOB) is not modelled.
- `get_avocado_git_version` is not modelled, because it runs git through the process layer.
- `get_job_results_dir`, `string_to_safe_path`, `os.path.expanduser`, `get_distribution` and `filter_test_tags_runnable` are function parameters with no interpretation.
- `pathlib` path normalisation is not modelled. Paths are looked up exactly as built.
- Symbolic links and special files (FIFOs, devices) are not modelled. An entry is a regular file or a directory.
- Permission errors on the pointer file, and files disappearing between listing and `stat`, are not modelled.
- The pointer file is decoded one character per byte, not as UTF-8.
- StreamOutput: the generator is modelled as the complete list it yields. An error that the source raises when iteration starts is returned as the whole result.
- The memory mapping and its release are not modelled. Only the bytes read are kept.
- Concurrent spawns that race on the shared container "c34" are not modelled.
