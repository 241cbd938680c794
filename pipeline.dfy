/**
 * The deploy steps of the pipeline helper: each runs external commands
 * (`docker`, `aws`) in a fixed order and stops at the first one that fails.
 *
 * A command is its argv. The commands run are recorded, in order, in the
 * trace of a `Shell`; what a command does is given by the shell's `world`,
 * which tells the exit code and standard output of the command started at
 * each position of the trace. The same argv started twice may so report
 * differently. Each step is a method over the shell, and a function of the
 * world and the number of commands already started states which commands
 * the step runs and what it returns.
 */
module Pipeline {

  import opened Wrappers
  import opened Argv
  import opened RepoUris
  import opened Digest

  /** What a finished command reports: its exit code and its standard output. */
  datatype Reply = Reply(code: int, stdout: string)

  /** What a step raises. */
  datatype Error =
    | ArgumentError(arg: ArgError)
    | BadUri(uri: UriError)
    | CalledProcessError(code: int, cmd: seq<string>)
    | DigestMissing(digest: DigestError)
    | JsonDecodeError

  /** A repository URI given either already parsed or as text (`Union[EcrRepoUri, str]`). */
  datatype UriArg = Parsed(repo: RepoUri) | Text(text: string)

  /**
   * What the command started `n`-th (counting from 0) reports, given its
   * argv: processes outside the model decide it.
   */
  type World = (nat, seq<string>) -> Reply

  /** The commands a step runs, in order, and what it returns or raises. */
  datatype Run<T> = Run(commands: seq<seq<string>>, result: Result<T, Error>)

  /** The processes the steps start, and the commands started so far. */
  class Shell {
    var trace: seq<seq<string>>
    const world: World

    constructor(world: World)
      ensures trace == [] && this.world == world
    {
      trace := [];
      this.world := world;
    }

    /** Runs one command to completion. */
    method Exec(argv: seq<string>) returns (reply: Reply)
      modifies this
      ensures trace == old(trace) + [argv] && reply == world(|old(trace)|, argv)
    {
      reply := world(|trace|, argv);
      trace := trace + [argv];
    }
  }

  // ---- the commands ----

  function LoginPasswordCmd(region: string): seq<string> {
    ["aws", "ecr", "get-login-password", "--region", region]
  }

  function LoginCmd(host: string): seq<string> {
    ["docker", "login", "--username", "AWS", "--password-stdin", host]
  }

  function TagCmd(image: string, target: string): seq<string> {
    ["docker", "tag", image, target]
  }

  function PushCmd(uri: string): seq<string> {
    ["docker", "push", uri]
  }

  function WaitCmd(region: string, funcName: string): seq<string> {
    ["aws", "lambda", "wait", "function-updated", "--region", region, "--function-name", funcName]
  }

  function UpdateCmd(region: string, funcName: string, imageUri: string): seq<string> {
    ["aws", "lambda", "update-function-code", "--region", region, "--function-name", funcName,
     "--image-uri", imageUri]
  }

  function ListImagesCmd(region: string, name: string): seq<string> {
    ["aws", "ecr", "list-images", "--region", region, "--repository-name", name,
     "--query", "imageIds[*]", "--output", "json"]
  }

  function BatchDeleteCmd(region: string, name: string, imageIds: string): seq<string> {
    ["aws", "ecr", "batch-delete-image", "--region", region, "--repository-name", name,
     "--image-ids", imageIds]
  }

  function StopCmd(containerName: string): seq<string> {
    ["docker", "container", "stop", containerName]
  }

  // ---- check_call ----

  /** `check_call(argv)`: the command, and `CalledProcessError` when it exits non-zero. */
  function CheckCallRun(world: World, n: nat, argv: seq<string>): (r: Run<()>)
    ensures r.commands == [argv]
    ensures r.result.Ok? <==> world(n, argv).code == 0
    ensures r.result.Err? ==> r.result.error == CalledProcessError(world(n, argv).code, argv)
  {
    var reply := world(n, argv);
    Run([argv], if reply.code == 0 then Ok(()) else Err(CalledProcessError(reply.code, argv)))
  }

  method CheckCall(sh: Shell, argv: seq<string>) returns (r: Result<(), Error>)
    modifies sh
    ensures sh.trace == old(sh.trace) + CheckCallRun(sh.world, |old(sh.trace)|, argv).commands
    ensures r == CheckCallRun(sh.world, |old(sh.trace)|, argv).result
  {
    var reply := sh.Exec(argv);
    if reply.code == 0 {
      r := Ok(());
    } else {
      r := Err(CalledProcessError(reply.code, argv));
    }
  }

  /** `EcrRepoUri(repo_uri)` when given text. */
  function Resolve(u: UriArg): Result<RepoUri, Error> {
    match u
    case Parsed(repo) => Ok(repo)
    case Text(s) =>
      match Parse(s)
      case Ok(repo) => Ok(repo)
      case Err(e) => Err(BadUri(e))
  }

  // ---- docker_build, docker_run, docker_stop ----

  /** `docker_build`: one `docker build` with the argv of `_combine`. */
  function DockerBuildRun(world: World, n: nat, sourceDir: string, imageName: string,
                          dockerFile: Option<string>): Run<()> {
    match Flatten(BuildItems(sourceDir, imageName, dockerFile))
    case Err(item) => Run([], Err(ArgumentError(TypeError(item))))
    case Ok(argv) => CheckCallRun(world, n, argv)
  }

  method DockerBuild(sh: Shell, sourceDir: string, imageName: string, dockerFile: Option<string>)
    returns (r: Result<(), Error>)
    modifies sh
    ensures sh.trace == old(sh.trace) + DockerBuildRun(sh.world, |old(sh.trace)|, sourceDir, imageName, dockerFile).commands
    ensures r == DockerBuildRun(sh.world, |old(sh.trace)|, sourceDir, imageName, dockerFile).result
  {
    var args := Combine(BuildItems(sourceDir, imageName, dockerFile));
    match args {
      case Err(item) =>
        r := Err(ArgumentError(TypeError(item)));
      case Ok(argv) =>
        r := CheckCall(sh, argv);
    }
  }

  /** `docker_build` runs exactly one command, the `docker build` argv. */
  lemma DockerBuildCommands(world: World, n: nat, sourceDir: string, imageName: string,
                            dockerFile: Option<string>)
    ensures DockerBuildRun(world, n, sourceDir, imageName, dockerFile).commands
      == [["docker", "build", "-t", imageName] + FileFlag(dockerFile) + [sourceDir]]
  {
    BuildArgv(sourceDir, imageName, dockerFile);
  }

  /** `docker_run`: the port check, then one `docker run` with the argv of `_combine`. */
  function DockerRunRun(world: World, n: nat, imageName: string, containerName: Option<string>,
                        detach: bool, portHost: Option<int>, portDocker: Option<int>): Run<()> {
    match DockerRunItems(imageName, containerName, detach, portHost, portDocker)
    case Err(e) => Run([], Err(ArgumentError(e)))
    case Ok(items) =>
      match Flatten(items)
      case Err(item) => Run([], Err(ArgumentError(TypeError(item))))
      case Ok(argv) => CheckCallRun(world, n, argv)
  }

  method DockerRun(sh: Shell, imageName: string, containerName: Option<string>, detach: bool,
                   portHost: Option<int>, portDocker: Option<int>)
    returns (r: Result<(), Error>)
    modifies sh
    ensures sh.trace == old(sh.trace)
      + DockerRunRun(sh.world, |old(sh.trace)|, imageName, containerName, detach, portHost, portDocker).commands
    ensures r == DockerRunRun(sh.world, |old(sh.trace)|, imageName, containerName, detach, portHost, portDocker).result
  {
    var mapping := PortMapping(portHost, portDocker);
    if mapping.Err? {
      return Err(ArgumentError(mapping.error));
    }
    var args := Combine(RunItems(imageName, containerName, detach, mapping.value));
    match args {
      case Err(item) =>
        r := Err(ArgumentError(TypeError(item)));
      case Ok(argv) =>
        r := CheckCall(sh, argv);
    }
  }

  /** A port without its partner raises before any command is run. */
  lemma DockerRunPortError(world: World, n: nat, imageName: string, containerName: Option<string>,
                           detach: bool, portHost: Option<int>, portDocker: Option<int>)
    ensures var run := DockerRunRun(world, n, imageName, containerName, detach, portHost, portDocker);
      portHost.Some? != portDocker.Some? <==> run == Run([], Err(ArgumentError(ValueError(PortMessage))))
  {
    DockerRunPorts(imageName, containerName, detach, portHost, portDocker);
    PortMappingCases(portHost, portDocker);
    if portHost.Some? == portDocker.Some? {
      var m := PortMapping(portHost, portDocker).value;
      RunArgv(imageName, containerName, detach, m);
    }
  }

  /** `docker_stop`: one `docker container stop`. */
  function DockerStopRun(world: World, n: nat, containerName: string): (r: Run<()>)
    ensures r.commands == [StopCmd(containerName)]
  {
    CheckCallRun(world, n, StopCmd(containerName))
  }

  method DockerStop(sh: Shell, containerName: string) returns (r: Result<(), Error>)
    modifies sh
    ensures sh.trace == old(sh.trace) + DockerStopRun(sh.world, |old(sh.trace)|, containerName).commands
    ensures r == DockerStopRun(sh.world, |old(sh.trace)|, containerName).result
  {
    r := CheckCall(sh, StopCmd(containerName));
  }

  // ---- docker_push_to_ecr ----

  /** The four commands of a push to `repo`, in order: password, login, tag, push. */
  function PushPlan(image: string, repo: RepoUri): seq<seq<string>> {
    [LoginPasswordCmd(repo.region), LoginCmd(repo.host), TagCmd(image, WithoutTag(repo)), PushCmd(repo.uri)]
  }

  /**
   * `docker_push_to_ecr`: the password process feeds `docker login`; then
   * `docker tag` and `docker push`, whose transcript gives the digest. The
   * password process is not checked; each later command stops the step if
   * it fails.
   */
  function PushRun(world: World, n: nat, image: string, u: UriArg): Run<string> {
    match Resolve(u)
    case Err(e) => Run([], Err(e))
    case Ok(repo) =>
      var plan := PushPlan(image, repo);
      var login, tag, push := world(n + 1, plan[1]), world(n + 2, plan[2]), world(n + 3, plan[3]);
      if login.code != 0 then Run(plan[..2], Err(CalledProcessError(login.code, plan[1])))
      else if tag.code != 0 then Run(plan[..3], Err(CalledProcessError(tag.code, plan[2])))
      else if push.code != 0 then Run(plan, Err(CalledProcessError(push.code, plan[3])))
      else
        match GetDigest(push.stdout)
        case Err(e) => Run(plan, Err(DigestMissing(e)))
        case Ok(digest) => Run(plan, Ok(WithoutTag(repo) + "@" + digest))
  }

  method DockerPushToEcr(sh: Shell, image: string, u: UriArg) returns (r: Result<string, Error>)
    modifies sh
    ensures sh.trace == old(sh.trace) + PushRun(sh.world, |old(sh.trace)|, image, u).commands
    ensures r == PushRun(sh.world, |old(sh.trace)|, image, u).result
  {
    var resolved := Resolve(u);
    if resolved.Err? {
      return Err(resolved.error);
    }
    var repo := resolved.value;
    ghost var plan := PushPlan(image, repo);
    var _ := sh.Exec(LoginPasswordCmd(repo.region));
    var login := CheckCall(sh, LoginCmd(repo.host));
    if login.Err? {
      assert sh.trace == old(sh.trace) + plan[..2];
      return Err(login.error);
    }
    var target := WithoutTag(repo);
    var tag := CheckCall(sh, TagCmd(image, target));
    if tag.Err? {
      assert sh.trace == old(sh.trace) + plan[..3];
      return Err(tag.error);
    }
    var push := PushCmd(repo.uri);
    var cp := sh.Exec(push);
    assert sh.trace == old(sh.trace) + plan;
    if cp.code != 0 {
      return Err(CalledProcessError(cp.code, push));
    }
    var digest := GetDigest(cp.stdout);
    if digest.Err? {
      return Err(DigestMissing(digest.error));
    }
    r := Ok(target + "@" + digest.value);
  }

  /**
   * The push runs a prefix of password, login, tag, push, and nothing when
   * the URI does not parse. A failing login stops before the tag and a
   * failing tag before the push; the step succeeds only after all four,
   * with the URI without its tag, `@` and the digest the push reported.
   */
  lemma PushOrder(world: World, n: nat, image: string, u: UriArg)
    ensures var run := PushRun(world, n, image, u);
      match Resolve(u)
      case Err(e) => run == Run([], Err(e))
      case Ok(repo) =>
        var plan := PushPlan(image, repo);
        && 2 <= |run.commands| <= 4
        && run.commands == plan[..|run.commands|]
        && (|run.commands| >= 3 ==> world(n + 1, plan[1]).code == 0)
        && (|run.commands| == 4 ==> world(n + 2, plan[2]).code == 0)
        && (|run.commands| < 4 ==> run.result.Err?)
        && (run.result.Ok? <==>
              && world(n + 1, plan[1]).code == 0 && world(n + 2, plan[2]).code == 0
              && world(n + 3, plan[3]).code == 0 && GetDigest(world(n + 3, plan[3]).stdout).Ok?)
        && (run.result.Ok? ==>
              run.commands == plan
              && run.result.value == WithoutTag(repo) + "@" + GetDigest(world(n + 3, plan[3]).stdout).value)
  {
    match Resolve(u)
    case Err(e) =>
    case Ok(repo) =>
      var plan := PushPlan(image, repo);
      assert plan[..4] == plan;
  }

  /**
   * The first of login, tag and push that exits non-zero stops the step:
   * nothing after it runs, and it raises `CalledProcessError` with that
   * command's exit code and argv.
   */
  lemma PushFirstFailure(world: World, n: nat, image: string, repo: RepoUri, k: nat)
    requires 1 <= k <= 3
    requires forall j :: 1 <= j < k ==> world(n + j, PushPlan(image, repo)[j]).code == 0
    requires world(n + k, PushPlan(image, repo)[k]).code != 0
    ensures var plan := PushPlan(image, repo);
      PushRun(world, n, image, Parsed(repo))
        == Run(plan[..k + 1], Err(CalledProcessError(world(n + k, plan[k]).code, plan[k])))
  {
    var plan := PushPlan(image, repo);
    assert plan[..4] == plan;
    if k >= 2 {
      assert world(n + 1, plan[1]).code == 0;
    }
    if k == 3 {
      assert world(n + 2, plan[2]).code == 0;
    }
  }

  /**
   * A failing push raises `CalledProcessError` with its exit code and argv,
   * whatever its transcript holds: the digest is not looked for.
   */
  lemma PushFailure(world: World, world2: World, n: nat, image: string, repo: RepoUri)
    requires forall k :: 0 <= k < 3 ==> world(n + k, PushPlan(image, repo)[k]) == world2(n + k, PushPlan(image, repo)[k])
    requires world(n + 3, PushCmd(repo.uri)).code == world2(n + 3, PushCmd(repo.uri)).code
    requires world(n + 1, LoginCmd(repo.host)).code == 0 && world(n + 2, TagCmd(image, WithoutTag(repo))).code == 0
    requires world(n + 3, PushCmd(repo.uri)).code != 0
    ensures PushRun(world, n, image, Parsed(repo))
      == Run(PushPlan(image, repo), Err(CalledProcessError(world(n + 3, PushCmd(repo.uri)).code, PushCmd(repo.uri))))
    ensures PushRun(world2, n, image, Parsed(repo)) == PushRun(world, n, image, Parsed(repo))
  {
    var plan := PushPlan(image, repo);
    assert world(n + 1, plan[1]) == world2(n + 1, plan[1]);
    assert world(n + 2, plan[2]) == world2(n + 2, plan[2]);
  }

  // ---- lambda_function_update ----

  /** `lambda_function_wait_updated`: one `aws lambda wait function-updated`. */
  function WaitRun(world: World, n: nat, region: string, funcName: string): (r: Run<()>)
    ensures r.commands == [WaitCmd(region, funcName)]
  {
    CheckCallRun(world, n, WaitCmd(region, funcName))
  }

  method LambdaFunctionWaitUpdated(sh: Shell, region: string, funcName: string) returns (r: Result<(), Error>)
    modifies sh
    ensures sh.trace == old(sh.trace) + WaitRun(sh.world, |old(sh.trace)|, region, funcName).commands
    ensures r == WaitRun(sh.world, |old(sh.trace)|, region, funcName).result
  {
    r := CheckCall(sh, WaitCmd(region, funcName));
  }

  /** The three commands of an update: wait, update the code, wait. */
  function UpdatePlan(region: string, funcName: string, imageUri: string): seq<seq<string>> {
    [WaitCmd(region, funcName), UpdateCmd(region, funcName, imageUri), WaitCmd(region, funcName)]
  }

  /** `lambda_function_update`: each command stops the step if it fails. */
  function UpdateRun(world: World, n: nat, region: string, funcName: string, imageUri: string): Run<()> {
    var plan := UpdatePlan(region, funcName, imageUri);
    var before, update, after := world(n, plan[0]), world(n + 1, plan[1]), world(n + 2, plan[2]);
    if before.code != 0 then Run(plan[..1], Err(CalledProcessError(before.code, plan[0])))
    else if update.code != 0 then Run(plan[..2], Err(CalledProcessError(update.code, plan[1])))
    else if after.code != 0 then Run(plan, Err(CalledProcessError(after.code, plan[2])))
    else Run(plan, Ok(()))
  }

  method LambdaFunctionUpdate(sh: Shell, region: string, funcName: string, imageUri: string)
    returns (r: Result<(), Error>)
    modifies sh
    ensures sh.trace == old(sh.trace) + UpdateRun(sh.world, |old(sh.trace)|, region, funcName, imageUri).commands
    ensures r == UpdateRun(sh.world, |old(sh.trace)|, region, funcName, imageUri).result
  {
    ghost var plan := UpdatePlan(region, funcName, imageUri);
    r := LambdaFunctionWaitUpdated(sh, region, funcName);
    if r.Err? {
      assert sh.trace == old(sh.trace) + plan[..1];
      return;
    }
    r := CheckCall(sh, UpdateCmd(region, funcName, imageUri));
    if r.Err? {
      assert sh.trace == old(sh.trace) + plan[..2];
      return;
    }
    r := LambdaFunctionWaitUpdated(sh, region, funcName);
    assert sh.trace == old(sh.trace) + plan;
  }

  /**
   * An update runs a prefix of wait, update-function-code, wait; the code
   * is updated only after a successful first wait, the second wait runs
   * only after a successful update, the step succeeds exactly when all
   * three do, and otherwise raises the error of the last command it ran.
   */
  lemma UpdateOrder(world: World, n: nat, region: string, funcName: string, imageUri: string)
    ensures var run, plan := UpdateRun(world, n, region, funcName, imageUri), UpdatePlan(region, funcName, imageUri);
      && 1 <= |run.commands| <= 3
      && run.commands == plan[..|run.commands|]
      && (|run.commands| >= 2 ==> world(n, WaitCmd(region, funcName)).code == 0)
      && (|run.commands| == 3 ==> world(n + 1, UpdateCmd(region, funcName, imageUri)).code == 0)
      && (run.result.Ok? <==>
            && world(n, WaitCmd(region, funcName)).code == 0
            && world(n + 1, UpdateCmd(region, funcName, imageUri)).code == 0
            && world(n + 2, WaitCmd(region, funcName)).code == 0)
      && (run.result.Ok? ==> run.commands == plan)
      && (run.result.Err? ==> var k := |run.commands| - 1;
            run.result.error == CalledProcessError(world(n + k, plan[k]).code, plan[k]))
  {
    var plan := UpdatePlan(region, funcName, imageUri);
    assert plan[..3] == plan;
  }

  /**
   * The wait after the update is a command of its own: it can fail after
   * the first wait and the update succeeded, and the step then raises its
   * `CalledProcessError` after all three commands.
   */
  lemma UpdateLateWaitFails(world: World, n: nat, region: string, funcName: string, imageUri: string)
    requires world(n, WaitCmd(region, funcName)).code == 0
    requires world(n + 1, UpdateCmd(region, funcName, imageUri)).code == 0
    requires world(n + 2, WaitCmd(region, funcName)).code != 0
    ensures UpdateRun(world, n, region, funcName, imageUri)
      == Run(UpdatePlan(region, funcName, imageUri),
             Err(CalledProcessError(world(n + 2, WaitCmd(region, funcName)).code, WaitCmd(region, funcName))))
  {
  }

  // ---- ecr_delete_images_by_json, ecr_delete_images_all ----

  /**
   * `ecr_delete_images_by_json`: nothing to do when the decoded JSON is
   * falsy, otherwise one `batch-delete-image` with the JSON text. `truthy`
   * tells whether `json.loads` of a text is truthy, `None` when the text is
   * not JSON.
   */
  function DeleteByJsonRun(world: World, n: nat, truthy: string -> Option<bool>,
                           u: UriArg, imageIds: string): Run<()> {
    match Resolve(u)
    case Err(e) => Run([], Err(e))
    case Ok(repo) =>
      match truthy(imageIds)
      case None => Run([], Err(JsonDecodeError))
      case Some(false) => Run([], Ok(()))
      case Some(true) => CheckCallRun(world, n, BatchDeleteCmd(repo.region, repo.name, imageIds))
  }

  method EcrDeleteImagesByJson(sh: Shell, truthy: string -> Option<bool>, u: UriArg, imageIds: string)
    returns (r: Result<(), Error>)
    modifies sh
    ensures sh.trace == old(sh.trace) + DeleteByJsonRun(sh.world, |old(sh.trace)|, truthy, u, imageIds).commands
    ensures r == DeleteByJsonRun(sh.world, |old(sh.trace)|, truthy, u, imageIds).result
  {
    var resolved := Resolve(u);
    if resolved.Err? {
      return Err(resolved.error);
    }
    var repo := resolved.value;
    var decoded := truthy(imageIds);
    if decoded.None? {
      return Err(JsonDecodeError);
    }
    if !decoded.value {
      return Ok(());
    }
    r := CheckCall(sh, BatchDeleteCmd(repo.region, repo.name, imageIds));
  }

  /**
   * No delete command for an empty listing, exactly one `batch-delete-image`
   * with the repository's region and name otherwise.
   */
  lemma DeleteByJsonCommands(world: World, n: nat, truthy: string -> Option<bool>,
                             u: UriArg, imageIds: string)
    ensures var run := DeleteByJsonRun(world, n, truthy, u, imageIds);
      match Resolve(u)
      case Err(e) => run == Run([], Err(e))
      case Ok(repo) =>
        && (truthy(imageIds) == Some(false) <==> run == Run([], Ok(())))
        && (truthy(imageIds) == Some(true) <==>
              run.commands == [BatchDeleteCmd(repo.region, repo.name, imageIds)])
        && (truthy(imageIds).None? <==> run.result == Err(JsonDecodeError))
  {
  }

  /** `ecr_delete_images_all`: list the images, then delete the listed ones. */
  function DeleteAllRun(world: World, n: nat, truthy: string -> Option<bool>, uri: string): Run<()> {
    match Parse(uri)
    case Err(e) => Run([], Err(BadUri(e)))
    case Ok(repo) =>
      var list := ListImagesCmd(repo.region, repo.name);
      var reply := world(n, list);
      if reply.code != 0 then Run([list], Err(CalledProcessError(reply.code, list)))
      else
        var rest := DeleteByJsonRun(world, n + 1, truthy, Parsed(repo), reply.stdout);
        Run([list] + rest.commands, rest.result)
  }

  method EcrDeleteImagesAll(sh: Shell, truthy: string -> Option<bool>, uri: string)
    returns (r: Result<(), Error>)
    modifies sh
    ensures sh.trace == old(sh.trace) + DeleteAllRun(sh.world, |old(sh.trace)|, truthy, uri).commands
    ensures r == DeleteAllRun(sh.world, |old(sh.trace)|, truthy, uri).result
  {
    var parsed := Parse(uri);
    if parsed.Err? {
      return Err(BadUri(parsed.error));
    }
    var repo := parsed.value;
    var list := ListImagesCmd(repo.region, repo.name);
    var reply := sh.Exec(list);
    if reply.code != 0 {
      return Err(CalledProcessError(reply.code, list));
    }
    r := EcrDeleteImagesByJson(sh, truthy, Parsed(repo), reply.stdout);
    assert sh.trace == old(sh.trace) + [list] + DeleteByJsonRun(sh.world, |old(sh.trace)| + 1, truthy, Parsed(repo), reply.stdout).commands;
  }

  /**
   * Deleting everything lists the images first, then deletes exactly the
   * listing the command printed, in one batch, or nothing when it is empty.
   */
  lemma DeleteAllCommands(world: World, n: nat, truthy: string -> Option<bool>, uri: string)
    ensures var run := DeleteAllRun(world, n, truthy, uri);
      match Parse(uri)
      case Err(e) => run == Run([], Err(BadUri(e)))
      case Ok(repo) =>
        var list := ListImagesCmd(repo.region, repo.name);
        && 1 <= |run.commands| <= 2
        && run.commands[0] == list
        && (|run.commands| == 2 <==> world(n, list).code == 0 && truthy(world(n, list).stdout) == Some(true))
        && (|run.commands| == 2 ==> run.commands[1] == BatchDeleteCmd(repo.region, repo.name, world(n, list).stdout))
        && (run.result.Ok? <==>
              (world(n, list).code == 0
               && (truthy(world(n, list).stdout) == Some(false)
                   || (truthy(world(n, list).stdout) == Some(true)
                       && world(n + 1, BatchDeleteCmd(repo.region, repo.name, world(n, list).stdout)).code == 0))))
  {
  }
}
