/**
 * The `maven` multi-task as it runs inside the task host: it checks the
 * required options, resolves the target's options field by field, writes
 * them to the host's shared configuration for the sub-tasks, and queues the
 * sub-tasks. The `maven:deploy-file` sub-task then reads its options back
 * and builds the argument vector for `mvn`.
 */
module MavenTask {
  import opened Wrappers
  import opened JsText
  import opened MavenOptions

  /** An entry of the multi-task's file list; the packaging step receives the list untouched. */
  datatype FileMapping = FileMapping(src: seq<string>, dest: Option<string>)

  /** A value in the host's shared configuration. */
  datatype ConfigValue =
    | ArchiveOptions(archive: string, mode: string)
    | FileList(files: seq<FileMapping>)
    | TaskOptions(options: map<string, string>)

  const PackageOptionsKey: string := "maven.package.options"
  const PackageFilesKey: string := "maven.package.files"
  const DeployFileOptionsKey: string := "maven.deploy-file.options"

  /** The configuration after a planning run has handed its resolved options to the sub-tasks. */
  function HandOff(config: map<string, ConfigValue>, options: map<string, string>, files: seq<FileMapping>)
    : (r: map<string, ConfigValue>)
    requires "file" in options && "packaging" in options
    ensures r.Keys == config.Keys + {PackageOptionsKey, PackageFilesKey, DeployFileOptionsKey}
  {
    config[PackageOptionsKey := ArchiveOptions(options["file"], options["packaging"])]
          [PackageFilesKey := FileList(files)]
          [DeployFileOptionsKey := TaskOptions(options)]
  }

  /**
   * The hand-off writes the archive name and packaging for the packaging
   * step, the file list, and the whole option set for the deploy step, and
   * leaves every other configuration entry as it was.
   */
  lemma HandOffContents(config: map<string, ConfigValue>, options: map<string, string>, files: seq<FileMapping>)
    requires "file" in options && "packaging" in options
    ensures var c := HandOff(config, options, files);
      && c.Keys == config.Keys + {PackageOptionsKey, PackageFilesKey, DeployFileOptionsKey}
      && c[PackageOptionsKey] == ArchiveOptions(options["file"], options["packaging"])
      && c[PackageFilesKey] == FileList(files)
      && c[DeployFileOptionsKey] == TaskOptions(options)
      && forall k :: k in config && k !in {PackageOptionsKey, PackageFilesKey, DeployFileOptionsKey} ==>
        c[k] == config[k]
  {
  }

  /** The flags of `mvn deploy:deploy-file`, in order, and the option each one carries. */
  const DeployGoal: string := "deploy:deploy-file"
  const DeployFlags: seq<string> :=
    ["-Dfile=", "-DgroupId=", "-DartifactId=", "-Dpackaging=", "-Dversion=", "-Durl=", "-DrepositoryId="]
  const DeployKeys: seq<string> := ["file", "groupId", "artifactId", "packaging", "version", "url", "repositoryId"]

  /** Each flag is `-D`, the name of the option it carries, and `=`. */
  lemma DeployFlagsNameTheirKeys()
    ensures |DeployFlags| == |DeployKeys| == 7
    ensures forall i :: 0 <= i < 7 ==> DeployFlags[i] == "-D" + DeployKeys[i] + "="
  {
  }

  /**
   * `args` is the `mvn` command for `options`: the deploy goal, then one
   * `-D<key>=<value>` argument per key of DeployKeys in order, the last of
   * them (repositoryId) only when that option is set.
   */
  ghost predicate IsDeployCommand(args: seq<string>, options: map<string, string>): (r: bool)
    ensures r ==> 7 <= |args| <= 8 && forall i :: 1 <= i < |args| ==>
      args[i] == "-D" + DeployKeys[i - 1] + "=" + Undefined(Get(options, DeployKeys[i - 1]))
  {
    && |args| == (if Truthy(Get(options, "repositoryId")) then 8 else 7)
    && args[0] == DeployGoal
    && forall i :: 1 <= i < |args| ==> args[i] == DeployArg(options, i - 1)
  }

  /** The `i`-th `-D` argument for `options`; a missing option reads `undefined`. */
  function DeployArg(options: map<string, string>, i: nat): (r: string)
    requires i < |DeployFlags|
    ensures r == "-D" + DeployKeys[i] + "=" + Undefined(Get(options, DeployKeys[i]))
  {
    DeployFlagsNameTheirKeys();
    DeployFlags[i] + Undefined(Get(options, DeployKeys[i]))
  }

  /**
   * The task host while one task runs: its shared configuration, the tasks
   * the running task has queued so far, and the tasks that were already
   * waiting behind the running task when it started.
   */
  class TaskHost {
    var config: map<string, ConfigValue>
    var queued: seq<string>
    var pending: seq<string>

    /** The order in which the tasks still to come will run. */
    function Upcoming(): (r: seq<string>)
      reads this
      ensures |r| == |queued| + |pending|
    {
      queued + pending
    }

    /** The host as a task starts, with `pending` waiting behind it. */
    constructor (config: map<string, ConfigValue>, pending: seq<string>)
      ensures this.config == config && queued == [] && this.pending == pending
    {
      this.config := config;
      queued := [];
      this.pending := pending;
    }

    /** `grunt.config.set(key, value)`. */
    method SetConfig(key: string, value: ConfigValue)
      modifies this
      ensures config == old(config)[key := value] && queued == old(queued) && pending == old(pending)
    {
      config := config[key := value];
    }

    /**
     * `grunt.task.run(...)`: the tasks run after the current one and after
     * those it queued earlier, in the order given, but ahead of every task
     * that was already waiting.
     */
    method RunTasks(tasks: seq<string>)
      modifies this
      ensures queued == old(queued) + tasks && pending == old(pending) && config == old(config)
      ensures Upcoming() == old(queued) + tasks + old(pending)
    {
      queued := queued + tasks;
    }

    /** The planning run of the `maven` multi-task for one target. */
    method Maven(target: string, version: Option<string>, mode: Option<string>, user: map<string, string>,
                 pkg: Manifest, files: seq<FileMapping>, inc: Increment) returns (outcome: Outcome<Fatal>)
      modifies this
      ensures var plan := PlanMaven(target, version, mode, user, pkg, inc);
        && (outcome.Fail? <==> plan.Failure?)
        && (plan.Failure? ==> outcome.error == plan.error)
        && (plan.Failure? || plan.value.Idle? ==> config == old(config) && queued == old(queued))
        && pending == old(pending)
        && (plan.Success? && plan.value.Scheduled? ==>
              && "file" in plan.value.options && "packaging" in plan.value.options
              && config == HandOff(old(config), plan.value.options, files)
              && queued == old(queued) + plan.value.tasks
              && Upcoming() == old(queued) + plan.value.tasks + old(pending))
    {
      var check := RequireOptionProps(user, RequiredProps);
      if check.Fail? {
        return Fail(MissingOptions(check.error));
      }
      if target == "deploy" {
        Deploy(user, pkg, files);
        outcome := Pass;
      } else if target == "release" {
        outcome := Release(version, mode, user, pkg, files, inc);
        if outcome.Pass? {
          ReleaseOptionsResolved(user, pkg, version, mode, inc);
        }
      } else {
        outcome := Pass;
      }
    }

    /** The `deploy` branch: resolve the options, hand them over, queue packaging and deployment. */
    method Deploy(user: map<string, string>, pkg: Manifest, files: seq<FileMapping>)
      modifies this
      ensures var o := DeployOptions(user, pkg);
        && config == HandOff(old(config), o, files)
        && queued == old(queued) + DeployTasks && pending == old(pending)
    {
      var options := WithDefaults(DeployDefaults(pkg), user);
      options := options["file" := ArtifactFile(Get(options, "file"), options["artifactId"],
                                                options["version"], options["packaging"])];
      assert options == DeployOptions(user, pkg);
      HandOver(options, files);
      RunTasks([PackageTask, DeployFileTask]);
    }

    /**
     * The `release` branch: resolve the options (aborting when there is no
     * next version), hand them over and queue the four release steps.
     */
    method Release(version: Option<string>, mode: Option<string>, user: map<string, string>, pkg: Manifest,
                   files: seq<FileMapping>, inc: Increment) returns (outcome: Outcome<Fatal>)
      modifies this
      ensures var r := ReleaseOptions(user, pkg, version, mode, inc);
        && (outcome.Fail? <==> r.Failure?)
        && (r.Failure? ==> outcome.error == r.error && config == old(config) && queued == old(queued))
        && pending == old(pending)
        && (r.Success? ==>
              && "file" in r.value && "packaging" in r.value && "version" in r.value && "nextVersion" in r.value
              && config == HandOff(old(config), r.value, files)
              && queued == old(queued) + ReleaseTasks(r.value["version"], r.value["nextVersion"]))
    {
      var resolved := ResolveReleaseOptions(version, mode, user, pkg, inc);
      if resolved.Failure? {
        return Fail(resolved.error);
      }
      var options := resolved.value;
      ReleaseOptionsResolved(user, pkg, version, mode, inc);
      HandOver(options, files);
      RunTasks(["maven:version:" + options["version"], PackageTask, DeployFileTask,
                "maven:version:" + options["nextVersion"] + ":deleteTag"]);
      outcome := Pass;
    }

    /**
     * The option resolution of the `release` branch, field by field: a lone
     * positional token that passes the mode test becomes the mode, then the
     * mode, the release version, the next development version and the file
     * name are set in turn; a next version of `null-SNAPSHOT` aborts.
     */
    static method ResolveReleaseOptions(version: Option<string>, mode: Option<string>, user: map<string, string>,
                                        pkg: Manifest, inc: Increment) returns (r: Result<map<string, string>, Fatal>)
      ensures r == ReleaseOptions(user, pkg, version, mode, inc)
    {
      var options := WithDefaults(ReleaseDefaults(pkg), user);
      var ver, md := version, mode;
      if Truthy(ver) && !Truthy(md) && IsValidMode(ver.value) {
        md := ver;
        ver := None;
      }
      ghost var resolved := ResolveRelease(version, mode, options["mode"], pkg.version);
      assert resolved == (Or(ver, DropSnapshot(pkg.version)), Or(md, options["mode"]));
      options := options["mode" := Or(md, options["mode"])];
      options := options["version" := Or(ver, DropSnapshot(pkg.version))];
      options := options["nextVersion" := NextVersion(inc, options["version"], options["mode"])];
      if options["nextVersion"] == "null-SNAPSHOT" {
        return Failure(UnknownNextVersion(NextVersionMessage(options["version"], options["mode"])));
      }
      options := options["file" := ArtifactFile(Get(options, "file"), options["artifactId"],
                                                options["version"], options["packaging"])];
      return Success(options);
    }

    /** The three `grunt.config.set` calls that pass the resolved options to the packaging and deploy sub-tasks. */
    method HandOver(options: map<string, string>, files: seq<FileMapping>)
      requires "file" in options && "packaging" in options
      modifies this
      ensures config == HandOff(old(config), options, files) && queued == old(queued) && pending == old(pending)
    {
      SetConfig(PackageOptionsKey, ArchiveOptions(options["file"], options["packaging"]));
      SetConfig(PackageFilesKey, FileList(files));
      SetConfig(DeployFileOptionsKey, TaskOptions(options));
    }

    /**
     * The `maven:deploy-file` sub-task up to the spawn of `mvn`: the argument
     * vector built from the options the planning run handed over, or nothing
     * when no options were handed over.
     */
    method DeployFileArgs() returns (args: Option<seq<string>>)
      ensures args.Some? <==> DeployFileOptionsKey in config && config[DeployFileOptionsKey].TaskOptions?
      ensures args.Some? ==> IsDeployCommand(args.value, config[DeployFileOptionsKey].options)
    {
      if DeployFileOptionsKey !in config || !config[DeployFileOptionsKey].TaskOptions? {
        return None;
      }
      var options := config[DeployFileOptionsKey].options;
      var a := [DeployGoal];
      a := Push(a, options, "-Dfile=" + Undefined(Get(options, "file")));
      a := Push(a, options, "-DgroupId=" + Undefined(Get(options, "groupId")));
      a := Push(a, options, "-DartifactId=" + Undefined(Get(options, "artifactId")));
      a := Push(a, options, "-Dpackaging=" + Undefined(Get(options, "packaging")));
      a := Push(a, options, "-Dversion=" + Undefined(Get(options, "version")));
      a := Push(a, options, "-Durl=" + Undefined(Get(options, "url")));
      if Truthy(Get(options, "repositoryId")) {
        a := Push(a, options, "-DrepositoryId=" + Undefined(Get(options, "repositoryId")));
      }
      CommandOfArgs(options, a);
      return Some(a);
    }
  }

  /** `args.push(arg)` for an argument vector that so far follows DeployFlags. */
  function Push(args: seq<string>, options: map<string, string>, arg: string): (r: seq<string>)
    requires 1 <= |args| <= |DeployFlags| && args[0] == DeployGoal
    requires forall i :: 1 <= i < |args| ==> args[i] == DeployArg(options, i - 1)
    requires arg == DeployArg(options, |args| - 1)
    ensures |r| == |args| + 1 && r[0] == DeployGoal
    ensures forall i :: 1 <= i < |r| ==> r[i] == DeployArg(options, i - 1)
  {
    args + [arg]
  }

  lemma CommandOfArgs(options: map<string, string>, a: seq<string>)
    requires |a| == (if Truthy(Get(options, "repositoryId")) then 8 else 7)
    requires a[0] == DeployGoal
    requires forall i :: 1 <= i < |a| ==> a[i] == DeployArg(options, i - 1)
    ensures IsDeployCommand(a, options)
  {
  }

  /** Two vectors that are both the command for the same options are the same vector. */
  lemma DeployCommandUnique(a: seq<string>, b: seq<string>, options: map<string, string>)
    requires IsDeployCommand(a, options) && IsDeployCommand(b, options)
    ensures a == b
  {
  }
}
