/**
 * The repository's deploy and release test cases, replayed through the
 * model with the numeric increment of module Semver standing in for the
 * semantic-version library. Each case is stated for every configuration
 * shaped like the test's (group and repository URL set, everything else
 * left to its default) and for every numeric version; the tests' own
 * values (`test-project`, 1.0.0-SNAPSHOT) are one instance.
 */
module Scenarios {
  import opened Wrappers
  import opened JsText
  import Semver
  import opened MavenOptions
  import opened MavenTask

  /** A configuration like the release tests': `groupId` and `url`, nothing that overrides a default. */
  predicate ReleaseConfig(user: map<string, string>)
  {
    && "groupId" in user && "url" in user
    && "file" !in user && "artifactId" !in user && "packaging" !in user && "mode" !in user
  }

  /** The text of a numeric version holds a `.`, so a version argument is never read as a bump mode. */
  lemma VersionNotMode(v: Semver.Version)
    ensures !IsValidMode(Semver.Format(v))
  {
    var s := Semver.Format(v);
    assert s[|Semver.NatToString(v.major)|] == '.';
    NonModeTokens(s);
  }

  /** Incrementing a numeric version by a bump mode yields the text of the bumped version. */
  lemma IncOfVersion(v: Semver.Version, bump: string)
    requires bump in ModeNames[..3]
    ensures Semver.Bump(v, bump).Some?
    ensures Semver.Inc(Semver.Format(v), bump) == Some(Semver.Format(Semver.Bump(v, bump).value))
  {
    Semver.IncOfFormat(v, bump);
  }

  /**
   * Releasing with arguments that resolve to a release version and a bump
   * mode the increment accepts schedules that release, with the increment
   * of it as the next development version, and names the archive after the
   * artifact, the release version and the packaging.
   */
  lemma SnapshotRelease(user: map<string, string>, pkg: Manifest, version: Option<string>, mode: Option<string>,
                        release: string, bump: string)
    requires "groupId" in user && "url" in user
    requires ResolveRelease(version, mode, Setting(user, "mode", "minor"), pkg.version) == (release, bump)
    requires Semver.Inc(release, bump).Some?
    ensures var r := PlanMaven("release", version, mode, user, pkg, Semver.Inc);
      && r.Success? && r.value.Scheduled?
      && r.value.tasks == ReleaseTasks(release, Semver.Inc(release, bump).value + Snapshot)
      && "file" in r.value.options
      && r.value.options["file"] == ArtifactFile(Get(user, "file"), Setting(user, "artifactId", pkg.name),
                                                 release, Setting(user, "packaging", "zip"))
  {
    Semver.IncNeverNull(release, bump);
    ReleasePlan(version, mode, user, pkg, Semver.Inc);
    ReleaseOptionsResolved(user, pkg, version, mode, Semver.Inc);
  }

  /**
   * `grunt maven:release` on a snapshot releases the snapshot's version and
   * moves on to the next minor snapshot (1.0.0-SNAPSHOT: 1.0.0, then
   * 1.1.0-SNAPSHOT), packaging `<name>-<version>.zip`.
   */
  lemma ReleaseDefaultMode(user: map<string, string>, name: string, base: Semver.Version)
    requires ReleaseConfig(user)
    ensures var r := PlanMaven("release", None, None, user, Manifest(name, Semver.Format(base) + Snapshot),
                               Semver.Inc);
      && r.Success? && r.value.Scheduled?
      && r.value.tasks == ReleaseTasks(Semver.Format(base),
                                       Semver.Format(Semver.Version(base.major, base.minor + 1, 0)) + Snapshot)
      && "file" in r.value.options
      && r.value.options["file"] == name + "-" + Semver.Format(base) + "." + "zip"
  {
    DropSnapshotOfSnapshot(Semver.Format(base));
    Semver.IncOfFormat(base, "minor");
    SnapshotRelease(user, Manifest(name, Semver.Format(base) + Snapshot), None, None, Semver.Format(base), "minor");
  }

  /**
   * `grunt maven:release:<version>` releases the given version and moves on
   * to the next minor snapshot of it (2.0.0: 2.0.0, then 2.1.0-SNAPSHOT).
   */
  lemma ReleaseExplicitVersion(user: map<string, string>, pkg: Manifest, target: Semver.Version)
    requires ReleaseConfig(user)
    ensures var r := PlanMaven("release", Some(Semver.Format(target)), None, user, pkg, Semver.Inc);
      && r.Success? && r.value.Scheduled?
      && r.value.tasks == ReleaseTasks(Semver.Format(target),
                                       Semver.Format(Semver.Version(target.major, target.minor + 1, 0)) + Snapshot)
      && "file" in r.value.options
      && r.value.options["file"] == pkg.name + "-" + Semver.Format(target) + "." + "zip"
  {
    VersionNotMode(target);
    Semver.IncOfFormat(target, "minor");
    SnapshotRelease(user, pkg, Some(Semver.Format(target)), None, Semver.Format(target), "minor");
  }

  /**
   * `grunt maven:release:<mode>` reads a lone bump mode as the mode: it
   * releases the snapshot's version and bumps by that mode (major on
   * 1.0.0-SNAPSHOT: 1.0.0, then 2.0.0-SNAPSHOT).
   */
  lemma ReleaseModeOnly(user: map<string, string>, name: string, base: Semver.Version, bump: string)
    requires ReleaseConfig(user)
    requires bump in ModeNames[..3]
    ensures var r := PlanMaven("release", Some(bump), None, user, Manifest(name, Semver.Format(base) + Snapshot),
                               Semver.Inc);
      && r.Success? && r.value.Scheduled? && Semver.Bump(base, bump).Some?
      && r.value.tasks == ReleaseTasks(Semver.Format(base),
                                       Semver.Format(Semver.Bump(base, bump).value) + Snapshot)
  {
    DropSnapshotOfSnapshot(Semver.Format(base));
    ModeNamePiecesValid(bump, 0, 0);
    IncOfVersion(base, bump);
    SnapshotRelease(user, Manifest(name, Semver.Format(base) + Snapshot), Some(bump), None,
                    Semver.Format(base), bump);
  }

  /**
   * `grunt maven:release:<version>:<mode>` releases the given version and
   * bumps it by the given mode (1.0.1 and patch: 1.0.1, then 1.0.2-SNAPSHOT).
   */
  lemma ReleaseVersionAndMode(user: map<string, string>, pkg: Manifest, target: Semver.Version, bump: string)
    requires ReleaseConfig(user)
    requires bump in ModeNames[..3]
    ensures var r := PlanMaven("release", Some(Semver.Format(target)), Some(bump), user, pkg, Semver.Inc);
      && r.Success? && r.value.Scheduled? && Semver.Bump(target, bump).Some?
      && r.value.tasks == ReleaseTasks(Semver.Format(target),
                                       Semver.Format(Semver.Bump(target, bump).value) + Snapshot)
  {
    IncOfVersion(target, bump);
    SnapshotRelease(user, pkg, Some(Semver.Format(target)), Some(bump), Semver.Format(target), bump);
  }

  /**
   * With the coordinates left to the manifest and no repository id, the
   * deploy command is the goal and six `-D` arguments: the archive, the
   * group, the manifest's name and version, the `zip` packaging and the URL.
   */
  lemma DeployCommandOfManifest(user: map<string, string>, pkg: Manifest, args: seq<string>)
    requires "file" !in user && "artifactId" !in user && "version" !in user && "packaging" !in user
    requires "groupId" in user && "url" in user && "repositoryId" !in user
    requires IsDeployCommand(args, DeployOptions(user, pkg))
    ensures |args| == 7 && args[0] == DeployGoal
    ensures args[1] == "-Dfile=" + pkg.name + "-" + pkg.version + "." + "zip"
    ensures args[2] == "-DgroupId=" + user["groupId"]
    ensures args[3] == "-DartifactId=" + pkg.name
    ensures args[4] == "-Dpackaging=" + "zip"
    ensures args[5] == "-Dversion=" + pkg.version
    ensures args[6] == "-Durl=" + user["url"]
  {
    var o := DeployOptions(user, pkg);
    forall i | 0 <= i < 6
      ensures args[i + 1] == DeployFlags[i] + o[DeployKeys[i]]
    {
      assert args[i + 1] == DeployArg(o, i);
    }
  }

  /**
   * `grunt maven:deploy` with a configuration like the deploy test's: the
   * options handed to the deploy step carry every configured option through
   * (the test's `type`, say), fill the coordinates in from the manifest and
   * name the archive `<name>-<version>.zip`; the deploy step then builds the
   * command of DeployCommandOfManifest from them. Packaging and deployment
   * run before any task that was already waiting, such as a later task of
   * the same command line.
   */
  method DeployRun(user: map<string, string>, pkg: Manifest, files: seq<FileMapping>, waiting: seq<string>)
    returns (handed: map<string, string>, args: Option<seq<string>>, upcoming: seq<string>)
    requires "groupId" in user && "url" in user
    requires "file" !in user && "artifactId" !in user && "version" !in user && "packaging" !in user
    requires "repositoryId" !in user
    ensures forall k :: k in user ==> k in handed && handed[k] == user[k]
    ensures handed.Keys == user.Keys + {"artifactId", "version", "packaging", "file"}
    ensures handed["artifactId"] == pkg.name && handed["version"] == pkg.version && handed["packaging"] == "zip"
    ensures handed["file"] == pkg.name + "-" + pkg.version + "." + "zip"
    ensures args.Some? && IsDeployCommand(args.value, handed)
    ensures upcoming == [PackageTask, DeployFileTask] + waiting
  {
    var host := new TaskHost(map[], waiting);
    DeployPlan(None, None, user, pkg, Semver.Inc);
    var outcome := host.Maven("deploy", None, None, user, pkg, files, Semver.Inc);
    HandOffContents(map[], DeployOptions(user, pkg), files);
    handed := host.config[DeployFileOptionsKey].options;
    args := host.DeployFileArgs();
    upcoming := host.Upcoming();
  }
}
