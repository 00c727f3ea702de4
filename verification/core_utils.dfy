/** Helpers of avocado/core/utils.py: locating files relative to the
    installed package, and turning resolver results into runnable tasks. */
module CoreUtils {
  import Wrappers  // not opened: its Result.Success would clash with ResolutionResult.Success
  import PosixPath

  /** A path that `prepend_base_path` leaves as it is: one that starts with
      '/', '~' or '.'. */
  predicate HasBasePrefix(p: string) {
    |p| > 0 && (p[0] == '/' || p[0] == '~' || p[0] == '.')
  }

  /** `startswith` with a tuple: the path starts with one of "/", "~" and
      ".". */
  lemma HasBasePrefixStartsWith(p: string)
    ensures HasBasePrefix(p) <==>
      PosixPath.IsPrefix("/", p) || PosixPath.IsPrefix("~", p) || PosixPath.IsPrefix(".", p)
  {
    if |p| > 0 {
      assert p[..1] == [p[0]];
    }
  }

  /** `prepend_base_path`: `~`-expand the value (expansion is given as a
      function), and place a path that is neither absolute, home-relative
      nor dot-relative under the `avocado` directory of the installed
      distribution at `distLocation`. */
  function PrependBasePath(value: string, expandUser: string -> string, distLocation: string): (r: string)
    ensures r == expandUser(value) <==> HasBasePrefix(expandUser(value))
    ensures PosixPath.IsSuffix(expandUser(value), r)
    ensures !HasBasePrefix(expandUser(value)) ==>
      r == PosixPath.Join(PosixPath.Join(distLocation, "avocado"), expandUser(value))
  {
    var expanded := expandUser(value);
    if !HasBasePrefix(expanded) then
      var base := PosixPath.Join(distLocation, "avocado");
      assert base != [] && base[|base| - 1] == 'o';
      PosixPath.Join(base, expanded)
    else expanded
  }

  /** With an absolute distribution location, and an expansion that leaves
      absolute paths alone and is idempotent (as `os.path.expanduser` is),
      prepending twice is prepending once. */
  lemma PrependBasePathIdempotent(value: string, expandUser: string -> string, distLocation: string)
    requires PosixPath.IsAbsolute(distLocation)
    requires forall p :: PosixPath.IsAbsolute(p) ==> expandUser(p) == p
    requires forall p :: expandUser(expandUser(p)) == expandUser(p)
    ensures var once := PrependBasePath(value, expandUser, distLocation);
      PrependBasePath(once, expandUser, distLocation) == once
  {
    var once := PrependBasePath(value, expandUser, distLocation);
    var expanded := expandUser(value);
    if !HasBasePrefix(expanded) {
      var base := PosixPath.Join(distLocation, "avocado");
      assert base[0] == '/';
      assert once[0] == '/';
      assert expandUser(once) == once;
    } else {
      assert expandUser(once) == once;
    }
  }

  /** `ReferenceResolutionResult`. */
  datatype ResolutionResult = Success | NotFound | Error

  /** A runnable found by a resolver. Which tags it carries is known only to
      the tag filter. */
  datatype Runnable = Runnable(kind: string, uri: string, args: seq<string>)

  /** The resolution of one test reference: its result and, on success, the
      runnables found. */
  datatype Resolution = Resolution(reference: string, result: ResolutionResult, runnables: seq<Runnable>)

  /** A task: its runnable, its identifier, and the status servers it
      reports to. */
  datatype Task = Task(runnable: Runnable, identifier: Wrappers.Option<string>,
                       statusServices: seq<Wrappers.Option<string>>)

  /** The job configuration entries read here; a missing entry is None. */
  datatype JobConfig = JobConfig(
    tags: Wrappers.Option<seq<string>>,          // filter.by_tags.tags
    includeEmpty: Wrappers.Option<bool>,         // filter.by_tags.include_empty
    includeEmptyKey: Wrappers.Option<bool>,      // filter.by_tags.include_empty_key
    statusServerUri: Wrappers.Option<string>)    // nrunner.status_server_uri

  /** `filter_test_tags_runnable(runnable, tags, include_empty, include_empty_key)`. */
  type TagFilter = (Runnable, seq<string>, Wrappers.Option<bool>, Wrappers.Option<bool>) -> bool

  /** Tag filtering applies when the configured tags are truthy: present
      and not an empty list. */
  predicate FiltersByTags(config: JobConfig) {
    config.tags.Some? && |config.tags.value| > 0
  }

  /** Whether a runnable of a successful resolution survives tag filtering. */
  predicate Keeps(config: JobConfig, tagFilter: TagFilter, runnable: Runnable) {
    !FiltersByTags(config)
    || tagFilter(runnable, config.tags.value, config.includeEmpty, config.includeEmptyKey)
  }

  /** Tags filter only when they are truthy: an absent or empty tag list
      keeps every runnable, and a non-empty one keeps exactly what the tag
      filter accepts. */
  lemma TagFilterAppliesWhenTruthy(config: JobConfig, tagFilter: TagFilter, runnable: Runnable)
    ensures config.tags.None? || config.tags == Wrappers.Some([]) ==> !FiltersByTags(config)
    ensures !FiltersByTags(config) ==> Keeps(config, tagFilter, runnable)
    ensures FiltersByTags(config) ==>
      (Keeps(config, tagFilter, runnable) <==>
       tagFilter(runnable, config.tags.value, config.includeEmpty, config.includeEmptyKey))
  {
  }

  /** The task built for a kept runnable: no identifier, and the one status
      server of the configuration. */
  function MakeTask(config: JobConfig, runnable: Runnable): (t: Task)
    ensures t.runnable == runnable && t.identifier.None?
    ensures t.statusServices == [config.statusServerUri]
  {
    Task(runnable, Wrappers.None, [config.statusServerUri])
  }

  /** The tasks of one successful resolution's runnables, in their order. */
  function RunnableTasks(config: JobConfig, tagFilter: TagFilter, runnables: seq<Runnable>): (ts: seq<Task>)
    ensures |ts| <= |runnables|
    ensures forall t :: t in ts ==> t.identifier.None? && t.statusServices == [config.statusServerUri]
    decreases |runnables|
  {
    if runnables == [] then []
    else
      var last := runnables[|runnables| - 1];
      RunnableTasks(config, tagFilter, runnables[..|runnables| - 1])
      + (if Keeps(config, tagFilter, last) then [MakeTask(config, last)] else [])
  }

  /** The tasks of a resolution: none unless it succeeded. */
  function ResolutionTasks(config: JobConfig, tagFilter: TagFilter, resolution: Resolution): (ts: seq<Task>)
    ensures resolution.result != Success ==> ts == []
    ensures |ts| <= |resolution.runnables|
  {
    if resolution.result == Success then RunnableTasks(config, tagFilter, resolution.runnables) else []
  }

  /** The tasks of all resolutions, in resolution order, then runnable order. */
  function ExpectedTasks(resolutions: seq<Resolution>, config: JobConfig, tagFilter: TagFilter): (ts: seq<Task>)
    ensures forall t :: t in ts ==> t.identifier.None? && t.statusServices == [config.statusServerUri]
    decreases |resolutions|
  {
    if resolutions == [] then []
    else
      ExpectedTasks(resolutions[..|resolutions| - 1], config, tagFilter)
      + ResolutionTasks(config, tagFilter, resolutions[|resolutions| - 1])
  }

  /** One more runnable adds its task at the end, if it is kept. */
  lemma RunnableTasksStep(config: JobConfig, tagFilter: TagFilter, runnables: seq<Runnable>, j: nat)
    requires j < |runnables|
    ensures RunnableTasks(config, tagFilter, runnables[..j + 1]) ==
            RunnableTasks(config, tagFilter, runnables[..j])
            + (if Keeps(config, tagFilter, runnables[j]) then [MakeTask(config, runnables[j])] else [])
  {
    assert runnables[..j + 1][..j] == runnables[..j];
  }

  /** One more resolution adds its tasks at the end. */
  lemma ExpectedTasksStep(resolutions: seq<Resolution>, i: nat, config: JobConfig, tagFilter: TagFilter)
    requires i < |resolutions|
    ensures ExpectedTasks(resolutions[..i + 1], config, tagFilter) ==
            ExpectedTasks(resolutions[..i], config, tagFilter) + ResolutionTasks(config, tagFilter, resolutions[i])
  {
    assert resolutions[..i + 1][..i] == resolutions[..i];
  }

  /** `resolutions_to_tasks`: skip resolutions that did not succeed, skip
      runnables the tag filter rejects when tags are configured, and make a
      task of every other runnable, appending as it goes. */
  method ResolutionsToTasks(resolutions: seq<Resolution>, config: JobConfig, tagFilter: TagFilter)
    returns (tasks: seq<Task>)
    ensures tasks == ExpectedTasks(resolutions, config, tagFilter)
  {
    tasks := [];
    for i := 0 to |resolutions|
      invariant tasks == ExpectedTasks(resolutions[..i], config, tagFilter)
    {
      var resolution := resolutions[i];
      ExpectedTasksStep(resolutions, i, config, tagFilter);
      if resolution.result != Success {
        continue;
      }
      tasks := AppendRunnableTasks(tasks, resolution.runnables, config, tagFilter);
    }
    assert resolutions[..|resolutions|] == resolutions;
  }

  /** The inner loop of `resolutions_to_tasks` over one successful
      resolution's runnables: append a task for every runnable the tag
      filter keeps, when tags are configured, or for every runnable
      otherwise. */
  method AppendRunnableTasks(tasks0: seq<Task>, runnables: seq<Runnable>, config: JobConfig, tagFilter: TagFilter)
    returns (tasks: seq<Task>)
    ensures tasks == tasks0 + RunnableTasks(config, tagFilter, runnables)
  {
    tasks := tasks0;
    var filterByTags := config.tags;
    var includeEmpty := config.includeEmpty;
    var includeEmptyKey := config.includeEmptyKey;
    var statusServer := config.statusServerUri;
    for j := 0 to |runnables|
      invariant tasks == tasks0 + RunnableTasks(config, tagFilter, runnables[..j])
    {
      var runnable := runnables[j];
      RunnableTasksStep(config, tagFilter, runnables, j);
      if filterByTags.Some? && |filterByTags.value| > 0 {
        if !tagFilter(runnable, filterByTags.value, includeEmpty, includeEmptyKey) {
          continue;
        }
      }
      ghost var done := RunnableTasks(config, tagFilter, runnables[..j]);
      assert tasks0 + done + [MakeTask(config, runnable)] == tasks0 + (done + [MakeTask(config, runnable)]);
      tasks := tasks + [Task(runnable, Wrappers.None, [statusServer])];
    }
    assert runnables[..|runnables|] == runnables;
  }

  /** Converting a list of resolutions split in two is converting each half
      in turn: the output keeps the order of the resolutions. */
  lemma {:induction false} ExpectedTasksAppend(a: seq<Resolution>, b: seq<Resolution>,
                                               config: JobConfig, tagFilter: TagFilter)
    ensures ExpectedTasks(a + b, config, tagFilter) ==
            ExpectedTasks(a, config, tagFilter) + ExpectedTasks(b, config, tagFilter)
    decreases |b|
  {
    if b == [] {
      assert a + b == a;
    } else {
      var b' := b[..|b| - 1];
      assert (a + b)[..|a + b| - 1] == a + b';
      assert (a + b)[|a + b| - 1] == b[|b| - 1];
      ExpectedTasksAppend(a, b', config, tagFilter);
    }
  }

  /** A resolution that did not succeed contributes no task: removing it
      changes nothing. */
  lemma FailedResolutionIgnored(resolutions: seq<Resolution>, i: nat, config: JobConfig, tagFilter: TagFilter)
    requires i < |resolutions| && resolutions[i].result != Success
    ensures ExpectedTasks(resolutions, config, tagFilter) ==
            ExpectedTasks(resolutions[..i] + resolutions[i + 1..], config, tagFilter)
  {
    var front, failed, back := resolutions[..i], [resolutions[i]], resolutions[i + 1..];
    assert resolutions == (front + failed) + back;
    ExpectedTasksAppend(front + failed, back, config, tagFilter);
    ExpectedTasksAppend(front, failed, config, tagFilter);
    ExpectedTasksAppend(front, back, config, tagFilter);
    assert failed[..0] == [];
    assert ExpectedTasks(failed, config, tagFilter) == [];
    assert ExpectedTasks(front + failed, config, tagFilter) == ExpectedTasks(front, config, tagFilter);
  }

  /** A task comes from a runnable of the list exactly when the runnable is
      kept. */
  lemma {:induction false} RunnableTasksMembership(config: JobConfig, tagFilter: TagFilter,
                                                   runnables: seq<Runnable>, t: Task)
    ensures t in RunnableTasks(config, tagFilter, runnables) <==>
      exists j :: 0 <= j < |runnables| && Keeps(config, tagFilter, runnables[j]) && t == MakeTask(config, runnables[j])
    decreases |runnables|
  {
    if runnables != [] {
      var init := runnables[..|runnables| - 1];
      RunnableTasksMembership(config, tagFilter, init, t);
      if exists j :: 0 <= j < |runnables| && Keeps(config, tagFilter, runnables[j]) && t == MakeTask(config, runnables[j]) {
        var j :| 0 <= j < |runnables| && Keeps(config, tagFilter, runnables[j]) && t == MakeTask(config, runnables[j]);
        if j < |init| {
          assert init[j] == runnables[j];
        }
      }
      if exists j :: 0 <= j < |init| && Keeps(config, tagFilter, init[j]) && t == MakeTask(config, init[j]) {
        var j :| 0 <= j < |init| && Keeps(config, tagFilter, init[j]) && t == MakeTask(config, init[j]);
        assert runnables[j] == init[j];
      }
    }
  }

  /** A task is produced exactly when it is made from a kept runnable of a
      successful resolution. */
  lemma {:induction false} ExpectedTasksMembership(resolutions: seq<Resolution>, config: JobConfig,
                                                   tagFilter: TagFilter, t: Task)
    ensures t in ExpectedTasks(resolutions, config, tagFilter) <==>
      exists i :: 0 <= i < |resolutions| && resolutions[i].result == Success
        && t in RunnableTasks(config, tagFilter, resolutions[i].runnables)
    decreases |resolutions|
  {
    if resolutions != [] {
      var init := resolutions[..|resolutions| - 1];
      ExpectedTasksMembership(init, config, tagFilter, t);
      if exists i :: 0 <= i < |init| && init[i].result == Success
           && t in RunnableTasks(config, tagFilter, init[i].runnables) {
        var i :| 0 <= i < |init| && init[i].result == Success
                 && t in RunnableTasks(config, tagFilter, init[i].runnables);
        assert resolutions[i] == init[i];
      }
      if exists i :: 0 <= i < |resolutions| && resolutions[i].result == Success
           && t in RunnableTasks(config, tagFilter, resolutions[i].runnables) {
        var i :| 0 <= i < |resolutions| && resolutions[i].result == Success
                 && t in RunnableTasks(config, tagFilter, resolutions[i].runnables);
        if i < |init| {
          assert init[i] == resolutions[i];
        }
      }
    }
  }

  /** The runnables of the successful resolutions, in order. */
  function SuccessfulRunnables(resolutions: seq<Resolution>): seq<Runnable>
    decreases |resolutions|
  {
    if resolutions == [] then []
    else
      var last := resolutions[|resolutions| - 1];
      SuccessfulRunnables(resolutions[..|resolutions| - 1])
      + (if last.result == Success then last.runnables else [])
  }

  /** A runnable is listed exactly when some successful resolution found
      it. */
  lemma {:induction false} SuccessfulRunnablesMembership(resolutions: seq<Resolution>, x: Runnable)
    ensures x in SuccessfulRunnables(resolutions) <==>
      exists i :: 0 <= i < |resolutions| && resolutions[i].result == Success && x in resolutions[i].runnables
    decreases |resolutions|
  {
    if resolutions != [] {
      var init := resolutions[..|resolutions| - 1];
      SuccessfulRunnablesMembership(init, x);
      if exists i :: 0 <= i < |init| && init[i].result == Success && x in init[i].runnables {
        var i :| 0 <= i < |init| && init[i].result == Success && x in init[i].runnables;
        assert resolutions[i] == init[i];
      }
      if exists i :: 0 <= i < |resolutions| && resolutions[i].result == Success && x in resolutions[i].runnables {
        var i :| 0 <= i < |resolutions| && resolutions[i].result == Success && x in resolutions[i].runnables;
        if i < |init| {
          assert init[i] == resolutions[i];
        }
      }
    }
  }

  /** Never more tasks than there are runnables in successful resolutions. */
  lemma {:induction false} ExpectedTasksBounded(resolutions: seq<Resolution>, config: JobConfig, tagFilter: TagFilter)
    ensures |ExpectedTasks(resolutions, config, tagFilter)| <= |SuccessfulRunnables(resolutions)|
    decreases |resolutions|
  {
    if resolutions != [] {
      ExpectedTasksBounded(resolutions[..|resolutions| - 1], config, tagFilter);
    }
  }

  /** Without tags to filter by, every runnable of a list becomes a task, in
      order. */
  lemma {:induction false} RunnableTasksUnfiltered(config: JobConfig, tagFilter: TagFilter, runnables: seq<Runnable>)
    requires !FiltersByTags(config)
    ensures var ts := RunnableTasks(config, tagFilter, runnables);
      |ts| == |runnables| && forall k :: 0 <= k < |ts| ==> ts[k] == MakeTask(config, runnables[k])
    decreases |runnables|
  {
    if runnables != [] {
      RunnableTasksUnfiltered(config, tagFilter, runnables[..|runnables| - 1]);
    }
  }

  /** Without tags to filter by, every runnable of every successful
      resolution becomes a task, in order. */
  lemma {:induction false} ExpectedTasksUnfiltered(resolutions: seq<Resolution>, config: JobConfig, tagFilter: TagFilter)
    requires !FiltersByTags(config)
    ensures var ts := ExpectedTasks(resolutions, config, tagFilter);
      var rs := SuccessfulRunnables(resolutions);
      |ts| == |rs| && forall k :: 0 <= k < |ts| ==> ts[k] == MakeTask(config, rs[k])
    decreases |resolutions|
  {
    if resolutions != [] {
      var last := resolutions[|resolutions| - 1];
      ExpectedTasksUnfiltered(resolutions[..|resolutions| - 1], config, tagFilter);
      if last.result == Success {
        RunnableTasksUnfiltered(config, tagFilter, last.runnables);
      }
    }
  }
}
