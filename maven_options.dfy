/**
 * The planning half of the `maven` multi-task: the required-option check,
 * the bump-mode test, the release-argument disambiguation, the release and
 * next development versions, the artifact file name, the resolved options of
 * the `deploy` and `release` targets and the sub-tasks each target schedules.
 * Everything here is a function of the multi-task's inputs; the task host that
 * stores the result and runs the sub-tasks is in module MavenTask.
 */
module MavenOptions {
  import opened Wrappers
  import opened JsText

  /** The fields of the project manifest (package.json) the multi-task reads. */
  datatype Manifest = Manifest(name: string, version: string)

  /** Why a run aborts before anything is scheduled. */
  datatype Fatal =
    | MissingOptions(message: string)
    | UnknownNextVersion(message: string)

  /** What a run leaves behind: nothing, or the resolved options and the sub-tasks to run next, in order. */
  datatype Plan =
    | Idle
    | Scheduled(options: map<string, string>, tasks: seq<string>)

  /** The semantic-version increment the release goal relies on: a version and a bump mode to the next version, or `null`. */
  type Increment = (string, string) -> Option<string>

  const RequiredProps: seq<string> := ["groupId", "url"]
  const Snapshot: string := "-SNAPSHOT"
  const ModeNames: seq<string> := ["major", "minor", "patch", "build"]
  /** The haystack of `isValidMode`: `major|minor|patch|build`. */
  const BumpModes: string := Join(ModeNames, "|")

  const PackageTask: string := "maven:package"
  const DeployFileTask: string := "maven:deploy-file"

  // ---------------------------------------------------------------------------
  // requireOptionProps

  /** The properties of `props` that `options` lacks, in the order of `props`. */
  function MissingProps(options: map<string, string>, props: seq<string>): (r: seq<string>)
    ensures forall p :: p in r <==> p in props && p !in options
    ensures |r| <= |props|
  {
    if props == [] then []
    else (if props[0] in options then [] else [props[0]]) + MissingProps(options, props[1..])
  }

  /** A property name in double quotes. */
  function Quote(name: string): string
  {
    "\"" + name + "\""
  }

  /** Each name in double quotes. */
  function Quoted(names: seq<string>): (r: seq<string>)
    ensures |r| == |names|
    ensures forall i :: 0 <= i < |names| ==> r[i] == Quote(names[i])
  {
    if names == [] then [] else [Quote(names[0])] + Quoted(names[1..])
  }

  /** The check of `requireOptionProps`: it passes exactly when every listed property is present. */
  function RequireOptionProps(options: map<string, string>, props: seq<string>): (r: Outcome<string>)
    ensures r.Pass? <==> forall p :: p in props ==> p in options
    ensures r.Fail? ==> r.error == "Required options " + Join(Quoted(MissingProps(options, props)), ", ") + " missing."
  {
    var missing := MissingProps(options, props);
    if |missing| == 0 then Pass
    else
      assert missing[0] in missing;
      Fail("Required options " + Join(Quoted(missing), ", ") + " missing.")
  }

  lemma {:induction false} MissingRequired(options: map<string, string>)
    ensures MissingProps(options, RequiredProps)
      == (if "groupId" in options then [] else ["groupId"]) + (if "url" in options then [] else ["url"])
  {
    assert MissingProps(options, []) == [];
    assert RequiredProps[1..] == ["url"] && ["url"][1..] == [];
  }

  /** The four outcomes of the check the multi-task makes on every run, with the exact error text. */
  lemma RequiredOptionsMessages(options: map<string, string>)
    ensures "groupId" in options && "url" in options ==> RequireOptionProps(options, RequiredProps) == Pass
    ensures "groupId" !in options && "url" in options
      ==> RequireOptionProps(options, RequiredProps) == Fail("Required options " + Quote("groupId") + " missing.")
    ensures "groupId" in options && "url" !in options
      ==> RequireOptionProps(options, RequiredProps) == Fail("Required options " + Quote("url") + " missing.")
    ensures "groupId" !in options && "url" !in options
      ==> RequireOptionProps(options, RequiredProps)
          == Fail("Required options " + Quote("groupId") + ", " + Quote("url") + " missing.")
  {
    MissingRequired(options);
    if "groupId" !in options && "url" !in options {
      MissingBoth(options);
    }
  }

  lemma MissingBoth(options: map<string, string>)
    requires "groupId" !in options && "url" !in options
    ensures RequireOptionProps(options, RequiredProps)
      == Fail("Required options " + Quote("groupId") + ", " + Quote("url") + " missing.")
  {
    MissingRequired(options);
    var q := Quoted(["groupId", "url"]);
    assert q[0] == Quote("groupId") && q[1] == Quote("url");
    assert q[1..] == [Quote("url")];
    assert Join(q, ", ") == Quote("groupId") + ", " + Quote("url");
    assert "Required options " + (Quote("groupId") + ", " + Quote("url")) + " missing."
        == "Required options " + Quote("groupId") + ", " + Quote("url") + " missing.";
  }

  // ---------------------------------------------------------------------------
  // isValidMode

  lemma ContainsCharIff(s: string, c: char)
    ensures Contains(s, [c]) <==> c in s
  {
    if c in s {
      var i :| 0 <= i < |s| && s[i] == c;
      OccursAtChar(c, s, i);
    }
    forall i: nat | OccursAt([c], s, i)
      ensures c in s
    {
      OccursAtChar(c, s, i);
    }
  }

  /**
   * `isValidMode`: the token holds no `|` and occurs somewhere in
   * `major|minor|patch|build`, so it is accepted when it is a bump mode or
   * any other piece of one.
   */
  function IsValidMode(mode: string): (r: bool)
    ensures r <==> '|' !in mode && Contains(BumpModes, mode)
  {
    ContainsCharIff(mode, '|');
    IndexOf(mode, "|") < 0 && IndexOf(BumpModes, mode) >= 0
  }

  /** A token without `|` that occurs in `major|minor|patch|build` is accepted. */
  lemma ModeAt(mode: string, i: nat)
    requires OccursAt(mode, BumpModes, i) && '|' !in mode
    ensures IsValidMode(mode)
  {
  }

  /** `major|minor|patch|build`, one mode name at a time. */
  lemma BumpModesSplit()
    ensures BumpModes == "major" + ("|" + ("minor" + ("|" + ("patch" + ("|" + "build")))))
  {
    var names := ModeNames;
    assert names[1..] == ["minor", "patch", "build"];
    assert names[1..][1..] == ["patch", "build"];
    assert names[1..][1..][1..] == ["build"];
  }

  /** Where each mode name occurs in `major|minor|patch|build`. */
  lemma ModeNameOffsets()
    ensures OccursAt("major", BumpModes, 0)
    ensures OccursAt("minor", BumpModes, 6)
    ensures OccursAt("patch", BumpModes, 12)
    ensures OccursAt("build", BumpModes, 18)
  {
    BumpModesSplit();
    var t3 := "build";
    var t2 := "patch" + ("|" + t3);
    var t1 := "minor" + ("|" + t2);
    assert OccursAt("major", BumpModes, 0) by {
      OccursAtStart("major", "|" + t1);
    }
    assert OccursAt("minor", BumpModes, 6) by {
      OccursAtStart("minor", "|" + t2);
      OccursAtShift("minor", "|", t1, 0);
      OccursAtShift("minor", "major", "|" + t1, 1);
    }
    assert OccursAt("patch", BumpModes, 12) by {
      OccursAtStart("patch", "|" + t3);
      OccursAtShift("patch", "|", t2, 0);
      OccursAtShift("patch", "minor", "|" + t2, 1);
      OccursAtShift("patch", "|", t1, 6);
      OccursAtShift("patch", "major", "|" + t1, 7);
    }
    assert OccursAt("build", BumpModes, 18) by {
      OccursAtStart("build", []);
      assert "build" + [] == t3;
      OccursAtShift("build", "|", t3, 0);
      OccursAtShift("build", "patch", "|" + t3, 1);
      OccursAtShift("build", "|", t2, 6);
      OccursAtShift("build", "minor", "|" + t2, 7);
      OccursAtShift("build", "|", t1, 12);
      OccursAtShift("build", "major", "|" + t1, 13);
    }
  }

  /** Every piece of a `|`-free token found in `major|minor|patch|build` is accepted. */
  lemma PieceAt(token: string, i: nat, j: nat, k: nat)
    requires OccursAt(token, BumpModes, i) && '|' !in token && j <= k <= |token|
    ensures IsValidMode(token[j..k])
  {
    var piece := token[j..k];
    assert OccursAt(piece, BumpModes, i + j) by {
      OccursAtSlice(token, BumpModes, i, j, k);
    }
    assert '|' !in piece by {
      forall x | 0 <= x < |piece|
        ensures piece[x] != '|'
      {
        assert piece[x] == token[j + x];
      }
    }
    ModeAt(piece, i + j);
  }

  /**
   * Every mode name is accepted, and so is every piece of one (such as `min`
   * or `ino`): the test is a substring search, not a comparison.
   */
  lemma ModeNamePiecesValid(name: string, j: nat, k: nat)
    requires name in ModeNames && j <= k <= |name|
    ensures IsValidMode(name[j..k])
    ensures IsValidMode(name)
  {
    var i := if name == "major" then 0 else if name == "minor" then 6 else if name == "patch" then 12 else 18;
    assert OccursAt(name, BumpModes, i) by {
      ModeNameOffsets();
    }
    assert '|' !in name by {
      assert name == "major" || name == "minor" || name == "patch" || name == "build";
    }
    PieceAt(name, i, j, k);
    ModeAt(name, i);
  }

  /** A token with a `|`, or with a `.` as every version number has, is not a mode. */
  lemma NonModeTokens(token: string)
    ensures '|' in token ==> !IsValidMode(token)
    ensures '.' in token ==> !IsValidMode(token)
  {
    if '.' in token {
      forall p | p in ModeNames
        ensures '.' !in p
      {
      }
      JoinChars(ModeNames, "|", '.');
      ForeignCharNotContained(BumpModes, token, '.');
    }
  }

  // ---------------------------------------------------------------------------
  // Release arguments and versions

  /** `pkg.version.substr(0, pkg.version.length - '-SNAPSHOT'.length)`. */
  function DropSnapshot(version: string): (r: string)
    ensures |version| >= |Snapshot| ==> r == version[..|version| - |Snapshot|]
    ensures |version| <= |Snapshot| ==> r == ""
  {
    Substr(version, 0, |version| - |Snapshot|)
  }

  /** A snapshot version loses exactly its suffix; the suffix itself is never inspected. */
  lemma DropSnapshotOfSnapshot(base: string)
    ensures DropSnapshot(base + Snapshot) == base
  {
    assert (base + Snapshot)[..|base|] == base;
  }

  /**
   * The release version and bump mode of `maven:release[:version][:mode]`:
   * a lone token that passes `isValidMode` is the mode, not a version; the
   * mode falls back to the `mode` option and the version to the manifest
   * version without its last nine characters.
   */
  function ResolveRelease(version: Option<string>, mode: Option<string>, modeOption: string, pkgVersion: string)
    : (r: (string, string))
    ensures Truthy(mode) ==> r == (Or(version, DropSnapshot(pkgVersion)), mode.value)
    ensures !Truthy(mode) && Truthy(version) && IsValidMode(version.value)
      ==> r == (DropSnapshot(pkgVersion), version.value)
    ensures !Truthy(mode) && !(Truthy(version) && IsValidMode(version.value))
      ==> r == (Or(version, DropSnapshot(pkgVersion)), modeOption)
  {
    var (v, m) := if Truthy(version) && !Truthy(mode) && IsValidMode(version.value)
                  then (None, version) else (version, mode);
    (Or(v, DropSnapshot(pkgVersion)), Or(m, modeOption))
  }

  /** `semver.inc(version, mode) + '-SNAPSHOT'`, with a `null` increment spelled out as JavaScript does. */
  function NextVersion(inc: Increment, version: string, mode: string): (r: string)
    ensures inc(version, mode).None? ==> r == "null-SNAPSHOT"
    ensures inc(version, mode).Some? ==> r == inc(version, mode).value + Snapshot
  {
    Nullable(inc(version, mode)) + Snapshot
  }

  /** The next version is unusable exactly when the increment failed (or produced the text `null`). */
  lemma NextVersionFails(inc: Increment, version: string, mode: string)
    ensures NextVersion(inc, version, mode) == "null-SNAPSHOT"
      <==> inc(version, mode) == None || inc(version, mode) == Some("null")
  {
    var r := inc(version, mode);
    if r.Some? && r.value + Snapshot == "null-SNAPSHOT" {
      assert |r.value| == 4;
      assert r.value == (r.value + Snapshot)[..4] == "null-SNAPSHOT"[..4];
    }
    assert "null" + Snapshot == "null-SNAPSHOT";
  }

  const MessageHead: string := "Failed to determine next development version based on version ("
  const MessageMiddle: string := ") and mode ("

  /** The fatal message of a failed increment names the version, then the mode, each in parentheses. */
  function NextVersionMessage(version: string, mode: string): (r: string)
    ensures OccursAt(MessageHead, r, 0)
    ensures OccursAt(version, r, |MessageHead|)
    ensures OccursAt(mode, r, |MessageHead| + |version| + |MessageMiddle|)
    ensures r[|r| - 1] == ')'
  {
    var tail := mode + ")";
    var r := MessageHead + (version + (MessageMiddle + tail));
    OccursAtStart(MessageHead, version + (MessageMiddle + tail));
    OccursAtStart(version, MessageMiddle + tail);
    OccursAtShift(version, MessageHead, version + (MessageMiddle + tail), 0);
    OccursAtStart(mode, ")");
    OccursAtShift(mode, MessageMiddle, tail, 0);
    OccursAtShift(mode, version, MessageMiddle + tail, |MessageMiddle|);
    OccursAtShift(mode, MessageHead, version + (MessageMiddle + tail), |version| + |MessageMiddle|);
    r
  }

  // ---------------------------------------------------------------------------
  // Artifact file name and resolved options

  /** `options.file || artifactId + '-' + version + '.' + packaging`. */
  function ArtifactFile(file: Option<string>, artifactId: string, version: string, packaging: string): (r: string)
    ensures Truthy(file) ==> r == file.value
    ensures !Truthy(file) ==> r == artifactId + "-" + version + "." + packaging
  {
    Or(file, artifactId + "-" + version + "." + packaging)
  }

  function DeployDefaults(pkg: Manifest): map<string, string>
  {
    map["artifactId" := pkg.name, "version" := pkg.version, "packaging" := "zip"]
  }

  function ReleaseDefaults(pkg: Manifest): map<string, string>
  {
    map["artifactId" := pkg.name, "packaging" := "zip", "mode" := "minor"]
  }

  /** `this.options(defaults)`: every configured option, and a default for each one left unset. */
  function WithDefaults(defaults: map<string, string>, user: map<string, string>): (o: map<string, string>)
    ensures o.Keys == defaults.Keys + user.Keys
    ensures forall k :: k in user ==> o[k] == user[k]
    ensures forall k :: k in defaults && k !in user ==> o[k] == defaults[k]
  {
    defaults + user
  }

  /** The value of an option after defaults: the configured one if any, else the default. */
  function Setting(user: map<string, string>, key: string, default: string): string
  {
    if key in user then user[key] else default
  }

  /** The options the `deploy` target hands to its sub-tasks. */
  function DeployOptions(user: map<string, string>, pkg: Manifest): (o: map<string, string>)
    ensures o.Keys == user.Keys + {"artifactId", "version", "packaging", "file"}
    ensures forall k :: k in user && k != "file" ==> o[k] == user[k]
    ensures o["artifactId"] == Setting(user, "artifactId", pkg.name)
    ensures o["version"] == Setting(user, "version", pkg.version)
    ensures o["packaging"] == Setting(user, "packaging", "zip")
    ensures o["file"] == ArtifactFile(Get(user, "file"), o["artifactId"], o["version"], o["packaging"])
  {
    var merged := WithDefaults(DeployDefaults(pkg), user);
    merged["file" := ArtifactFile(Get(merged, "file"), merged["artifactId"], merged["version"], merged["packaging"])]
  }

  /** The options the `release` target hands to its sub-tasks, or why it aborts. */
  function ReleaseOptions(user: map<string, string>, pkg: Manifest, version: Option<string>, mode: Option<string>,
                          inc: Increment): (r: Result<map<string, string>, Fatal>)
    ensures
      var (v, m) := ResolveRelease(version, mode, Setting(user, "mode", "minor"), pkg.version);
      && (r.Failure? <==> NextVersion(inc, v, m) == "null-SNAPSHOT")
      && (r.Failure? ==> r.error == UnknownNextVersion(NextVersionMessage(v, m)))
  {
    var merged := WithDefaults(ReleaseDefaults(pkg), user);
    var (v, m) := ResolveRelease(version, mode, merged["mode"], pkg.version);
    var next := NextVersion(inc, v, m);
    if next == "null-SNAPSHOT" then Failure(UnknownNextVersion(NextVersionMessage(v, m)))
    else
      var o := merged["mode" := m]["version" := v]["nextVersion" := next];
      Success(o["file" := ArtifactFile(Get(o, "file"), o["artifactId"], v, o["packaging"])])
  }

  /**
   * A successful release resolves the coordinates as a deploy does, except
   * that the version is the release version, the mode the resolved bump mode,
   * and the next development version is recorded beside them.
   */
  lemma ReleaseOptionsResolved(user: map<string, string>, pkg: Manifest, version: Option<string>,
                               mode: Option<string>, inc: Increment)
    requires ReleaseOptions(user, pkg, version, mode, inc).Success?
    ensures
      var (v, m) := ResolveRelease(version, mode, Setting(user, "mode", "minor"), pkg.version);
      var o := ReleaseOptions(user, pkg, version, mode, inc).value;
      && o.Keys == user.Keys + {"artifactId", "packaging", "mode", "version", "nextVersion", "file"}
      && (forall k :: k in user && k !in {"mode", "version", "nextVersion", "file"} ==> o[k] == user[k])
      && o["artifactId"] == Setting(user, "artifactId", pkg.name)
      && o["packaging"] == Setting(user, "packaging", "zip")
      && o["mode"] == m
      && o["version"] == v
      && o["nextVersion"] == NextVersion(inc, v, m)
      && o["file"] == ArtifactFile(Get(user, "file"), o["artifactId"], v, o["packaging"])
  {
    var merged := WithDefaults(ReleaseDefaults(pkg), user);
    assert merged["mode"] == Setting(user, "mode", "minor");
    assert Get(merged, "file") == Get(user, "file");
  }

  // ---------------------------------------------------------------------------
  // Sub-task sequences and the whole plan

  const DeployTasks: seq<string> := [PackageTask, DeployFileTask]

  /** Bump to the release version, package, deploy, then bump to the next development version and drop its tag. */
  function ReleaseTasks(version: string, nextVersion: string): (r: seq<string>)
    ensures |r| == 4 && r[1..3] == DeployTasks
    ensures r[0] == "maven:version:" + version && r[3] == "maven:version:" + nextVersion + ":deleteTag"
  {
    ["maven:version:" + version, PackageTask, DeployFileTask, "maven:version:" + nextVersion + ":deleteTag"]
  }

  /** One run of the `maven` multi-task for a target: the check first, then the target's own planning. */
  function PlanMaven(target: string, version: Option<string>, mode: Option<string>,
                     user: map<string, string>, pkg: Manifest, inc: Increment): (r: Result<Plan, Fatal>)
    ensures RequireOptionProps(user, RequiredProps).Fail?
      ==> r == Failure(MissingOptions(RequireOptionProps(user, RequiredProps).error))
    ensures r.Success? && r.value.Scheduled? ==> target == "deploy" || target == "release"
    ensures r.Failure? && r.error.UnknownNextVersion? ==> target == "release"
  {
    match RequireOptionProps(user, RequiredProps)
    case Fail(message) => Failure(MissingOptions(message))
    case Pass =>
      if target == "deploy" then Success(Scheduled(DeployOptions(user, pkg), DeployTasks))
      else if target == "release" then
        match ReleaseOptions(user, pkg, version, mode, inc)
        case Failure(e) => Failure(e)
        case Success(o) => Success(Scheduled(o, ReleaseTasks(o["version"], o["nextVersion"])))
      else Success(Idle)
  }

  /** A run aborts on missing options, whatever the target, exactly when `groupId` or `url` is not configured. */
  lemma MissingOptionsAbort(target: string, version: Option<string>, mode: Option<string>,
                            user: map<string, string>, pkg: Manifest, inc: Increment)
    ensures var r := PlanMaven(target, version, mode, user, pkg, inc);
      (r.Failure? && r.error.MissingOptions?) <==> !("groupId" in user && "url" in user)
    ensures !("groupId" in user && "url" in user) ==>
      PlanMaven(target, version, mode, user, pkg, inc)
        == Failure(MissingOptions(RequireOptionProps(user, RequiredProps).error))
  {
    RequiredOptionsMessages(user);
  }

  /** A target other than `deploy` and `release` schedules nothing. */
  lemma OtherTargetsIdle(target: string, version: Option<string>, mode: Option<string>,
                         user: map<string, string>, pkg: Manifest, inc: Increment)
    requires "groupId" in user && "url" in user
    requires target != "deploy" && target != "release"
    ensures PlanMaven(target, version, mode, user, pkg, inc) == Success(Idle)
  {
    RequiredOptionsMessages(user);
  }

  /** `deploy` packages and then deploys, with the manifest supplying the unset coordinates. */
  lemma DeployPlan(version: Option<string>, mode: Option<string>, user: map<string, string>, pkg: Manifest,
                   inc: Increment)
    requires "groupId" in user && "url" in user
    ensures var r := PlanMaven("deploy", version, mode, user, pkg, inc);
      && r.Success? && r.value.Scheduled?
      && r.value.tasks == [PackageTask, DeployFileTask]
      && r.value.options == DeployOptions(user, pkg)
  {
    RequiredOptionsMessages(user);
  }

  /**
   * `release` bumps to the resolved release version, packages, deploys and
   * bumps to the next development version; it aborts instead exactly when
   * the increment fails.
   */
  lemma ReleasePlan(version: Option<string>, mode: Option<string>, user: map<string, string>, pkg: Manifest,
                    inc: Increment)
    requires "groupId" in user && "url" in user
    ensures
      var (v, m) := ResolveRelease(version, mode, Setting(user, "mode", "minor"), pkg.version);
      var r := PlanMaven("release", version, mode, user, pkg, inc);
      && (r.Failure? <==> inc(v, m) == None || inc(v, m) == Some("null"))
      && (r.Failure? ==> r.error == UnknownNextVersion(NextVersionMessage(v, m)))
      && (r.Success? ==> r.value == Scheduled(ReleaseOptions(user, pkg, version, mode, inc).value,
                                              ReleaseTasks(v, inc(v, m).value + Snapshot)))
  {
    RequiredOptionsMessages(user);
    var (v, m) := ResolveRelease(version, mode, Setting(user, "mode", "minor"), pkg.version);
    NextVersionFails(inc, v, m);
  }

  /** Every deploy is preceded by packaging, and in a release the next-version bump comes last. */
  predicate PackagedBeforeDeployed(tasks: seq<string>)
  {
    forall j :: 0 <= j < |tasks| && tasks[j] == DeployFileTask ==>
      exists i :: 0 <= i < j && tasks[i] == PackageTask
  }

  lemma {:induction false} ReleaseTasksOrdered(version: string, nextVersion: string)
    ensures PackagedBeforeDeployed(ReleaseTasks(version, nextVersion))
    ensures DeployFileTask in ReleaseTasks(version, nextVersion)
  {
    var ts := ReleaseTasks(version, nextVersion);
    assert ts[2] == DeployFileTask;
    assert ts[0][6] == 'v' && ts[3][6] == 'v' && DeployFileTask[6] == 'd';
    forall j | 0 <= j < |ts| && ts[j] == DeployFileTask
      ensures exists i :: 0 <= i < j && ts[i] == PackageTask
    {
      assert j == 2;
      assert ts[1] == PackageTask;
    }
  }

  lemma DeployTasksOrdered()
    ensures PackagedBeforeDeployed(DeployTasks) && DeployFileTask in DeployTasks
  {
    assert DeployTasks[0] == PackageTask;
  }

  lemma PlanOrdering(target: string, version: Option<string>, mode: Option<string>,
                     user: map<string, string>, pkg: Manifest, inc: Increment)
    requires PlanMaven(target, version, mode, user, pkg, inc).Success?
    ensures var p := PlanMaven(target, version, mode, user, pkg, inc).value;
      && (p.Scheduled? <==> target in {"deploy", "release"})
      && (p.Scheduled? ==> PackagedBeforeDeployed(p.tasks) && DeployFileTask in p.tasks)
      && (p.Scheduled? && target == "release" ==>
            p.tasks[|p.tasks| - 1] == "maven:version:" + p.options["nextVersion"] + ":deleteTag")
  {
    var p := PlanMaven(target, version, mode, user, pkg, inc).value;
    if p.Scheduled? {
      if target == "release" {
        ReleaseTasksOrdered(p.options["version"], p.options["nextVersion"]);
      } else {
        DeployTasksOrdered();
      }
    }
  }
}
