# grunt-maven-tasks: option resolution and command assembly

grunt-maven-tasks is a Grunt plugin. It packages a JavaScript project into an archive and publishes it to a Maven
repository with `mvn deploy:deploy-file`. Its `release` target bumps the project to a release version, publishes it,
and then bumps it to the next development (`-SNAPSHOT`) version.

This project models the planning part of the `maven` multi-task in `tasks/maven_tasks.js`. A planning run takes:

- the multi-task's options;
- the project manifest (name and version from `package.json`);
- the positional arguments of `maven:release[:version][:mode]`.

From these it:

- checks the required options;
- resolves the options of the addressed target;
- hands the resolved options to the sub-tasks through the host's shared configuration;
- queues the sub-tasks.

The model also covers how the `maven:deploy-file` sub-task turns those options into the argument vector for `mvn`.

Modules:

- **Wrappers** (`wrappers.dfy`): `Option`, `Outcome` and `Result`.
- **JsText** (`js_text.dfy`): the JavaScript string behaviour the plugin relies on:
  - `indexOf`;
  - `substr` with Annex B's clamping of start and length, counting characters rather than UTF-16 code units;
  - `Array.prototype.join`;
  - truthiness, `a || b`, and the string conversion of `undefined` and `null`.
- **Semver** (`semver.dfy`): a numeric `MAJOR.MINOR.PATCH` version. It has parsing, formatting and the
  `major`/`minor`/`patch` increment. It stands in for the `semver` library's `inc` in the scenarios.
- **MavenOptions** (`maven_options.dfy`): everything the multi-task computes, as functions of its inputs:
  - the required-option check;
  - the bump-mode test;
  - resolution of the release version and mode;
  - the next development version;
  - the artifact file name;
  - the deploy and release option sets;
  - the plan of one run (`PlanMaven`).
- **MavenTask** (`maven_task.dfy`): the task host as a class. Its fields are:
  - `config`, which stands for `grunt.config` as a flat map from dotted paths (such as `maven.package.options`) to values;
  - `queued`, the tasks the current task has passed to `grunt.task.run`;
  - `pending`, the tasks that were already waiting when the current task started (the later tasks of
    `grunt maven:release jshint`, say).

  Grunt runs the queued tasks, in order, ahead of the pending ones. Its methods follow the source statement by
  statement:
  - the options object is updated field by field;
  - there are three `grunt.config.set` calls;
  - the `-D` arguments are pushed one by one.

  Each method is proved against the functions of MavenOptions, the hand-off function and the deploy-command predicate,
  or states its new state outright.
- **Scenarios** (`scenarios.dfy`): the repository's deploy and release tests, stated for every configuration shaped
  like the tests' and for every numeric version.

Representation choices:

- An options object is a `map<string, string>`:
  - `hasOwnProperty(k)` is `k in options`;
  - `options.k || d` takes the value when the key is present and non-empty.
- `semver.inc` is a parameter `inc: (string, string) -> Option<string>`, where `None` stands for `null`.
  The planner therefore holds for any increment function.
- A fatal error is a `Failure`/`Fail` value. When a run fails, the host state is left unchanged.

Where the plugin's documented behaviour and its code differ, the model follows the code:

- The release version is the manifest version with its last nine characters removed. The code does not check that
  they are `-SNAPSHOT`, and a manifest version of nine characters or fewer gives the empty string.
- `groupId` and `url` are required for every target, including targets other than `deploy` and `release`.
- The bump-mode test is a substring test on `"major|minor|patch|build"`, so any piece of a mode name, such as `min`
  or `ino`, also passes it.

## Model

| member | source | states |
|---|---|---|
| JsText.IndexOf | tasks/maven_tasks.js:153 | `indexOf`: negative exactly when the needle does not occur; otherwise the first position where it occurs |
| JsText.Substr | tasks/maven_tasks.js:48 | `substr(start, length)`: the slice when in range, empty for a non-positive length, never longer than the string |
| JsText.JoinChars | tasks/maven_tasks.js:151 | a character in no part and not in the separator is not in the joined string |
| JsText.Join | tasks/maven_tasks.js:151 | `join`: no parts give the empty string and one part gives that part |
| JsText.JoinEnds | tasks/maven_tasks.js:171 | a joined string starts with the first part and ends with the last |
| MavenOptions.MissingProps | tasks/maven_tasks.js:160-162 | a key is reported exactly when it is required and the options lack it as their own property; never more keys than required |
| MavenOptions.Quoted | tasks/maven_tasks.js:162-164 | each reported key is wrapped in double quotes, in order |
| MavenOptions.RequireOptionProps | tasks/maven_tasks.js:156-173 | the check passes exactly when every required key is present; otherwise it fails with `Required options <quoted keys joined by ", "> missing.` |
| MavenOptions.MissingRequired | tasks/maven_tasks.js:18 | the missing keys among `groupId`, `url` are exactly those the options lack, in that order |
| MavenOptions.RequiredOptionsMessages | tasks/maven_tasks.js:18 | the four outcomes of the check on `groupId` and `url`, with the exact message naming each missing key |
| MavenOptions.MissingBoth | tasks/maven_tasks.js:171 | with both keys missing, the message lists `"groupId", "url"` |
| MavenOptions.IsValidMode | tasks/maven_tasks.js:150-154 | a token is a valid mode exactly when it has no `\|` and occurs in `major\|minor\|patch\|build` |
| MavenOptions.ModeNamePiecesValid | tasks/maven_tasks.js:150-154 | each of `major`, `minor`, `patch`, `build` is accepted, and so is every piece of one |
| MavenOptions.NonModeTokens | tasks/maven_tasks.js:153 | a token containing `\|` or `.` is never a mode |
| MavenOptions.PieceAt | tasks/maven_tasks.js:153 | any piece without `\|` of a token that occurs in the mode list passes the mode test |
| MavenOptions.DropSnapshot | tasks/maven_tasks.js:48 | the manifest version without its last nine characters, or empty when it is no longer than nine |
| MavenOptions.DropSnapshotOfSnapshot | tasks/maven_tasks.js:48 | a `<base>-SNAPSHOT` version releases as exactly `<base>` |
| MavenOptions.ResolveRelease | tasks/maven_tasks.js:42-48 | a lone token that is a valid mode becomes the mode and the version comes from the manifest; otherwise the given version (or the manifest's) and the given mode (or the `mode` option) |
| MavenOptions.NextVersion | tasks/maven_tasks.js:54 | the increment plus `-SNAPSHOT`, and `null-SNAPSHOT` when the increment gives `null` |
| MavenOptions.NextVersionFails | tasks/maven_tasks.js:54-55 | the next version is `null-SNAPSHOT` exactly when the increment fails (or yields the text `null`) |
| MavenOptions.NextVersionMessage | tasks/maven_tasks.js:56-58 | the fatal message starts with its fixed head, then names the version, then the mode, and ends with `)` |
| MavenOptions.ArtifactFile | tasks/maven_tasks.js:26 | an explicit `file` wins; otherwise `artifactId-version.packaging` |
| MavenOptions.WithDefaults | tasks/maven_tasks.js:21-25 | `this.options(defaults)`: every configured option, plus the default of each unset one |
| MavenOptions.DeployOptions | tasks/maven_tasks.js:21-26 | deploy options: configured values kept; `artifactId`, `version` and `packaging` default to the manifest name, the manifest version and `zip`; `file` from ArtifactFile |
| MavenOptions.ReleaseOptions | tasks/maven_tasks.js:36-60 | release resolution fails exactly when the next version is `null-SNAPSHOT`, with the message naming the version and the mode |
| MavenOptions.ReleaseOptionsResolved | tasks/maven_tasks.js:36-60 | a successful release resolution keeps the configured options and sets the artifact id, packaging, resolved mode, release version, next version and file |
| MavenOptions.ReleaseTasks | tasks/maven_tasks.js:66-69 | four release steps: the version bump to the release version, package, deploy-file, and the bump to the next version with tag deletion |
| MavenOptions.PlanMaven | tasks/maven_tasks.js:14-71 | the required-option check runs first and a failure aborts with its message; only `deploy` and `release` schedule tasks; only `release` can fail on the increment |
| MavenOptions.MissingOptionsAbort | tasks/maven_tasks.js:18 | for every target, the run aborts with the check's message exactly when `groupId` or `url` is missing |
| MavenOptions.OtherTargetsIdle | tasks/maven_tasks.js:20-70 | a target other than `deploy` and `release` schedules nothing |
| MavenOptions.DeployPlan | tasks/maven_tasks.js:20-33 | `deploy` schedules `maven:package`, then `maven:deploy-file`, with the deploy options |
| MavenOptions.ReleasePlan | tasks/maven_tasks.js:35-70 | `release` aborts exactly when the increment fails; otherwise it schedules the version bump, package, deploy and next-version bump with tag deletion |
| MavenOptions.ReleaseTasksOrdered | tasks/maven_tasks.js:66-69 | in a release, packaging precedes the deploy step |
| MavenOptions.DeployTasksOrdered | tasks/maven_tasks.js:32-33 | in a deploy, packaging precedes the deploy step |
| MavenOptions.PlanOrdering | tasks/maven_tasks.js:20-70 | a successful plan schedules tasks exactly for `deploy` and `release`; each deploy step is preceded by packaging; a release ends with the next-version bump |
| MavenTask.HandOffContents | tasks/maven_tasks.js:28-30 | the hand-off writes `{archive: file, mode: packaging}`, the file list and the whole option set under their dotted paths, and leaves every other flat key alone |
| MavenTask.HandOff | tasks/maven_tasks.js:28-30 | the hand-off adds the package options, the package files and the deploy-file options to the configuration and no other key |
| MavenTask.IsDeployCommand | tasks/maven_tasks.js:81-90 | a deploy command has 7 or 8 entries, and each after the goal is `-D<key>=` plus that option's value (`undefined` when absent) |
| MavenTask.DeployArg | tasks/maven_tasks.js:82-89 | the `i`-th `-D` argument names the `i`-th deploy key and carries that option's value |
| MavenTask.DeployFlagsNameTheirKeys | tasks/maven_tasks.js:82-89 | each of the seven flags is `-D<key>=` for the option it carries |
| MavenTask.TaskHost.SetConfig | tasks/maven_tasks.js:28 | `grunt.config.set`: one entry replaced, the queued and pending tasks untouched |
| MavenTask.TaskHost.RunTasks | tasks/maven_tasks.js:32-33 | `grunt.task.run`: the tasks follow those the current task queued earlier, in order, and run ahead of every pending task |
| MavenTask.TaskHost.Maven | tasks/maven_tasks.js:14-71 | the run follows PlanMaven: fails exactly when the plan fails, leaves the host untouched on failure or for other targets, otherwise hands the plan's options over and queues its tasks ahead of the pending ones |
| MavenTask.TaskHost.Deploy | tasks/maven_tasks.js:20-33 | the deploy branch hands over DeployOptions and queues package then deploy-file, ahead of the pending tasks |
| MavenTask.TaskHost.Release | tasks/maven_tasks.js:35-70 | the release branch fails exactly when ReleaseOptions fails, changing nothing; otherwise it hands over the options and queues the four release steps ahead of the pending tasks |
| MavenTask.TaskHost.ResolveReleaseOptions | tasks/maven_tasks.js:36-60 | the field-by-field updates of the options object compute ReleaseOptions |
| MavenTask.TaskHost.HandOver | tasks/maven_tasks.js:62-64 | the three `grunt.config.set` calls produce HandOff and queue nothing |
| MavenTask.TaskHost.DeployFileArgs | tasks/maven_tasks.js:79-90 | with options handed over, the vector is the goal and the six `-D` arguments in order, plus `-DrepositoryId=` last exactly when that option is truthy (7 or 8 entries); a missing option reads `undefined` |
| MavenTask.Push | tasks/maven_tasks.js:82-89 | one `args.push` keeps the vector a prefix of the deploy command |
| MavenTask.DeployCommandUnique | tasks/maven_tasks.js:81-90 | the options determine the deploy command completely |
| Semver.Inc | tasks/maven_tasks.js:54 | a numeric increment succeeds only on a parsable version and a bump mode, giving the bumped version's text |
| Semver.ParseOfFormat | tasks/maven_tasks.js:54 | parsing the text of a version gives that version back |
| Semver.FormatOfParse | tasks/maven_tasks.js:54 | a parsable version text is the text of what it parses to |
| Semver.IncOfFormat | tasks/maven_tasks.js:54 | `major` gives X+1.0.0, `minor` gives X.Y+1.0, `patch` gives X.Y.Z+1, any other mode fails |
| Semver.IncIsLater | tasks/maven_tasks.js:54 | an increment always parses and is strictly later than its input |
| Semver.IncNeverNull | tasks/maven_tasks.js:54-55 | the numeric increment never yields the text `null` |
| Scenarios.VersionNotMode | tasks/maven_tasks.js:42 | the text of a numeric version never passes the mode test, so it stays the version |
| Scenarios.SnapshotRelease | tasks/maven_tasks.js:35-70 | arguments resolving to a version and mode the increment accepts schedule that release, with the increment as next version and the archive named from the release version |
| Scenarios.ReleaseDefaultMode | test/deploy-test.js:50 | `maven:release` on `<v>-SNAPSHOT` releases `<v>`, moves on to the next minor snapshot and packages `<name>-<v>.zip` |
| Scenarios.ReleaseExplicitVersion | test/deploy-test.js:51 | `maven:release:<v>` releases `<v>` and moves on to its next minor snapshot |
| Scenarios.ReleaseModeOnly | test/deploy-test.js:52 | `maven:release:<mode>` releases the manifest's version and bumps it by that mode |
| Scenarios.ReleaseVersionAndMode | test/deploy-test.js:53 | `maven:release:<v>:<mode>` releases `<v>` and bumps it by that mode |
| Scenarios.DeployCommandOfManifest | tasks/maven_tasks.js:81-87 | with coordinates from the manifest and no repository id, the command is the goal and the six `-D` arguments with those values |
| Scenarios.DeployRun | test/deploy-test.js:121-135 | a deploy run hands the deploy step every configured option (such as `type`), the manifest's name and version, `zip` and `<name>-<version>.zip`, and the deploy step builds the command from them; package and deploy-file run before every task already waiting |

## Left out

- Reading `package.json` (tasks/maven_tasks.js:15) is file I/O. The manifest is an input record.
- The host's merging of task-level and target-level options is not modelled. The options a run sees are one map.
- Option values are strings only. Booleans and numbers are not represented.
- The check at tasks/maven_tasks.js:49-53 is not modelled. It inspects `options.nextVersion` before assigning it, and it
  can only fire if the user configured `nextVersion` as `null-SNAPSHOT`.
- The logging around the required-option check is not modelled, and neither are the colouring of the fatal message's
  version and mode (`.cyan`) or verbose output.
- `maven:package` (tasks/maven_tasks.js:73-77) wraps the archiver library. The model covers only the options and file
  list it receives.
- The spawn of `mvn` and its completion callback (tasks/maven_tasks.js:92-104) are external processes, so they are not
  modelled. DeployFileArgs stops at the argument vector.
- `maven:version` (tasks/maven_tasks.js:107-142) and `isGitRepo` (tasks/maven_tasks.js:144-148) are not modelled. They
  only run `npm version` and `git` as subprocesses. Release plans name the `maven:version` tasks they queue.
- Semver.Inc implements only the numeric `major`, `minor` and `patch` increment of the `semver` library. It covers no
  pre-release identifiers, no `v` prefix and no `build` mode. Its version components are unbounded natural numbers,
  while the library holds them as JavaScript numbers, which lose precision above 2^53. The planner itself takes any
  increment function.
- Substr: lengths and offsets count characters (Unicode scalar values), while JavaScript's `substr` counts UTF-16
  code units. The two agree unless the string holds a character outside the Basic Multilingual Plane.
- DropSnapshot: it drops the last nine characters, while the source drops nine UTF-16 code units. When one of
  the version's last nine characters lies outside the Basic Multilingual Plane, the results differ.
- The manifest always has a `name` and a `version`. A `package.json` without them is not represented. In the source,
  `release` with no version argument then throws a TypeError at tasks/maven_tasks.js:48, and `deploy` uses
  `undefined` in the coordinates and the archive name.
- `grunt.config` is a flat map from dotted paths. In grunt the configuration is nested: `grunt.config.set` on
  `maven.package.options` changes the enclosing `maven` object and replaces everything stored below that path, so a
  key below a written path does not survive as it does in the model. The template expansion (`<% %>`) that
  `grunt.config` applies when the deploy step reads its options (tasks/maven_tasks.js:80) is not modelled either.
- Renaming by `type` (such as `war`), classifier-based extensions and archive permission bits are not modelled.
  `tasks/maven_tasks.js` does not implement them; it passes `type` through untouched, and DeployRun states that.
