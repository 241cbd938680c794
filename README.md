# lambdarado: a Dafny model of the deploy helper and the entry points

This project models the logic of rtmigo/lambdarado_py, in two parts.

The first part is the deploy-pipeline helper, `lambdado_pipeline.py`. It covers:

- the ECR repository URI `host/name[:tag|@digest]`, its region and its form without a tag;
- the digest that `docker push` reports;
- the argument vectors of `docker build` and `docker run`;
- the order of the `docker` and `aws` commands for pushing an image, updating a Lambda function and deleting repository images.

The second part is the library that runs a Flask application either as an AWS Lambda function or as a local server. It covers:

- the boolean environment variables;
- the logging wrapper around the Lambda handler;
- the module name derived from the script's path;
- installing the `handler` into a loaded module;
- the choice between starting the AWS Lambda runtime interface client and running the local server.

Files and modules:

- `wrappers.dfy` (`Wrappers`): `Option` and `Result`.
- `strings.dfy` (`Strings`): the Python string operations the code relies on. These are `split`, `strip`, ASCII `isdigit`/`int`/`str`/`lower`, one-character `replace`, and maximal character runs for the regular expressions.
- `repo_uri.dfy` (`RepoUris`): `EcrRepoUri` and `ecr_repo_uri_to_region`. `EcrRepoUri` is never changed after `__init__`, so it is a datatype built by `Parse`. Parse errors are values: no regex match (the `AttributeError` of `m.group`) and fewer than three host segments (the `IndexError` of `split('.')[-3]`).
- `digest.dfy` (`Digest`): `_get_digest`, as the leftmost match of `digest: (sha256:[0-9a-z]+)`.
- `argv.dfy` (`Argv`): `_combine` is a loop method proved against the function `Flatten`. It also holds the items of `docker_build` and `docker_run`, and the port mapping.
- `pipeline.dfy` (`Pipeline`): each deploy step is a method over a `Shell`.
  - The shell's `trace` records every command started.
  - Its `world` gives the exit code and standard output of the command started at each position of the trace, so a command run twice may report differently the second time.
  - Each method is tied to a function that lists the commands the step runs and what it returns or raises.
- `handlers.dfy` (`Handlers`): handlers as values (the application's handler, or the logging wrapper around a handler), with the effects of invoking one. It also holds `sys.modules` as a map to `PyModule` objects whose `dict` changes in place, and the mode decision shared by both entry points.
- `wrap_handler_default.dfy` (`WrapHandlerDefault`): `_is_true_environ` and `wrap_aws_handler_default`.
- `module_names.dfy` (`ModuleNames`): `file_to_module_name`, which both library modules implement with the same code.
- `lambdarado.dfy` (`Lambdarado`): `_lambdarado.py`. This covers the cached flags of `_wrap_aws_handler_default` as a class with two fields, `assign_lambda_handler` as a method that updates the module's dict, and `start`.
- `legacy_lambdarado.dfy` (`LegacyLambdarado`): the older `lambdarado.py`, with `assign_lambda_handler` and `hybrid_server`.

The repository's test vectors reappear as lemmas.

- The ECR URIs of `TestEctRepoUri` are stated for any account id without dots, slashes or line feeds. The tests' account ids are instances of this.
- The digest test-vector hex is also a parameter, except in the transcript of `TestGetDigest`, which is reproduced line by line.

The model keeps these behaviours of the code as written:

- `EcrRepoUri` keeps a tag or a digest in its one `tag` attribute (lambdado_pipeline.py:91).
- `_get_digest` searches for `digest: (sha256:[0-9a-z]+)`, so the digest run may hold any lower-case letter.
- A host with fewer than three dot-separated segments makes `split('.')[-3]` raise `IndexError`.
- The pattern `(.+)/([^@:]+)(?:[@:](.+))?` under `re.match` has no end anchor, and its `.` does not match a line feed. So:
  - the name may hold a line feed;
  - a tag ends at the first line feed, and what follows is dropped.

`tests/test_funcs.py` imports `_is_true_environ` from `lambdarado/_lambdarado.py`, which does not define it. The function is modelled from `lambdarado/_wrap_handler_default.py`, and the test table is stated against that.

`_wrap_aws_handler_default` in `_lambdarado.py` sets its flags when the variable equals `0`. The older module uses `1`, and `_is_true_environ` reads `0` as false. The model keeps the code as written. `Lambdarado.FlagReadings` states the disagreement.

## Model

| member | source | states |
|---|---|---|
| RepoUris.Parse | lambdado_pipeline.py:85-92 | a parsed URI keeps the original string as `uri` (what `__str__` returns), and its region is the third-from-last `.`-segment of its host; ParseNoMatch and ParseErrors state when each error occurs |
| RepoUris.WithoutTag | lambdado_pipeline.py:94-96 | `uri_without_tag`; ParseShape states that a parsed URI starts with it, and ParseCompose that it is `host/name` of the parts |
| RepoUris.ToString | lambdado_pipeline.py:98-99 | `__str__`; Parse states that the parsed URI keeps the original text |
| RepoUris.ParseNoMatch | lambdado_pipeline.py:88-89 | the regex fails to match exactly when no `/` is followed by a name character before the first line feed |
| RepoUris.ParseErrors | lambdado_pipeline.py:88-92 | the constructor never fails with `StopIteration`; it raises `IndexError` exactly when the pattern matches and the greedy host has fewer than three `.`-segments |
| RepoUris.HostEndsAt | lambdado_pipeline.py:88-89 | where group 1 `(.+)` may end: a `/` with a name character after it and no line feed before it; ParseNoMatch and ParseShape state its role |
| RepoUris.LastHostEnd | lambdado_pipeline.py:88-89 | the greedy end of group 1: a position where it may end, with none later |
| RepoUris.TagAt | lambdado_pipeline.py:88-91 | group 3 `(.+)` after `@` or `:`; TagAtShape states it |
| RepoUris.RegionOf | lambdado_pipeline.py:92 | `split('.')[-3]`: defined exactly when there are at least three segments; RegionOfSegments states which segment it is |
| RepoUris.ParseShape | lambdado_pipeline.py:88-90 | host and name are non-empty; the host has no line feed and is the longest possible; the name holds no `@` or `:` and is followed by `@`, `:` or the end; the string starts with `uri_without_tag` |
| RepoUris.ParseTagShape | lambdado_pipeline.py:88-91 | the tag is absent when the separator is last or followed by a line feed; otherwise it is the rest of that line after the separator |
| RepoUris.TagAtShape | lambdado_pipeline.py:91 | group 3 at a position: absent before a line feed or the end, otherwise the non-empty rest of the line |
| RepoUris.ParseCompose | lambdado_pipeline.py:88-96 | round trip: parsing `host/name`, `host/name:tag` or `host/name@digest` gives back host, name, tag or digest (None without a suffix) and the host's region |
| RepoUris.NoSlashNoMatch | lambdado_pipeline.py:88 | a string without `/` is rejected as not matching |
| RepoUris.RegionOfSegments | lambdado_pipeline.py:92 | the region of `p.region.x.y` is `region`, whatever `p` holds |
| RepoUris.AwsHostRegion | lambdado_pipeline.py:134-135 | a host ending in `.amazonaws.com` always has a region: the segment before `amazonaws` |
| RepoUris.UriToRegion | lambdado_pipeline.py:132-135 | fails exactly when no `/`-segment ends in `.amazonaws.com`; otherwise the result is the region of the first such segment |
| RepoUris.FirstEndingWith | lambdado_pipeline.py:134 | the first element ending with the suffix, none before it, or None when no element does |
| RepoUris.UriToRegionAgrees | lambdado_pipeline.py:132-135 | for a parsed URI whose host is one `.amazonaws.com` segment, `ecr_repo_uri_to_region` gives the parsed region |
| RepoUris.EcrHostRegion | lambdado_pipeline.py:104-109 | the tests' hosts `<account>.dkr.ecr.us-east-1.amazonaws.com` lie in `us-east-1` |
| RepoUris.TagExample | lambdado_pipeline.py:103-111 | `host/abc_x1:mytag` parses to that host, name `abc_x1`, tag `mytag`, region `us-east-1`, and without the tag is `host/abc_x1` |
| RepoUris.NoTagExample | lambdado_pipeline.py:113-121 | `host/abc_x1` parses with no tag, and the URI without the tag is the URI itself |
| RepoUris.DigestExample | lambdado_pipeline.py:123-129 | in `host/imagename@sha256:<hex>`, the name is `imagename` and the whole digest is the tag |
| RepoUris.UriToRegionExample | lambdado_pipeline.py:138-139 | the module-level check: the test URI yields `us-east-1` |
| Digest.FirstMatch | lambdado_pipeline.py:143 | the leftmost position where the marker is followed by a digest character, with no match before it, or None when there is no match |
| Digest.GetDigest | lambdado_pipeline.py:142-144 | `_get_digest`; GetDigestFound, GetDigestShape and GetDigestAfter state when it succeeds and what it returns |
| Digest.GetDigestFound | lambdado_pipeline.py:142-144 | a digest is found exactly when the pattern matches somewhere |
| Digest.GetDigestShape | lambdado_pipeline.py:143-144 | the digest is `sha256:` followed by the longest non-empty run of `[0-9a-z]`, taken from the leftmost match |
| Digest.GetDigestAfter | lambdado_pipeline.py:143-144 | a text without `g`, then the marker, a run of digest characters and a non-digest character gives `sha256:` and that run |
| Digest.NoMarkerNoDigest | lambdado_pipeline.py:142-144 | a transcript without `digest: sha256:` has no digest |
| Digest.TranscriptExample | lambdado_pipeline.py:148-154 | the transcript of `TestGetDigest` gives `sha256:d4c7852abfabaf3076bd6a84` |
| Argv.Flatten | lambdado_pipeline.py:29-40 | an error is always an item of a type other than str, list, tuple or None |
| Argv.Combine | lambdado_pipeline.py:29-40 | the loop computes `Flatten` of the items |
| Argv.FlattenAppend | lambdado_pipeline.py:30-39 | flattening is in order: the argv of a concatenation is the concatenation of the argvs, and the first error wins |
| Argv.FlattenSingle | lambdado_pipeline.py:32-39 | a string contributes itself, a list or tuple its elements, None nothing, and any other item raises `TypeError` with that item |
| Argv.FlattenOk | lambdado_pipeline.py:31-40 | `_combine` succeeds exactly when no item is of another type |
| Argv.FlattenFirstError | lambdado_pipeline.py:38-39 | the `TypeError` names the first item of another type |
| Argv.ThenAssoc | lambdado_pipeline.py:30-40 | joining partial argvs and errors is associative |
| Argv.BuildItems | lambdado_pipeline.py:46-50 | the items `docker_build` combines; BuildArgv states their argv |
| Argv.PortMapping | lambdado_pipeline.py:61-67 | the port check and mapping; PortMappingCases and PortMappingRoundTrip state its cases and its text |
| Argv.RunItems | lambdado_pipeline.py:69-74 | the items `docker_run` combines; RunArgv states their argv |
| Argv.DockerRunItems | lambdado_pipeline.py:61-74 | the port check, then the items; DockerRunPorts states the outcome |
| Argv.BuildArgv | lambdado_pipeline.py:46-50 | the `docker build` argv is `docker build -t <image>`, then `-f <file>` only when a docker file is given, then the source directory |
| Argv.BuildArgvPositions | lambdado_pipeline.py:46-50 | the source directory is always last; `-f` and the file sit right after the image name when given; length 5 or 7 |
| Argv.PortMappingCases | lambdado_pipeline.py:61-67 | exactly one port given is the only `ValueError`; neither gives no mapping |
| Argv.PortMappingRoundTrip | lambdado_pipeline.py:66 | both ports give a mapping that splits at `:` into `str(host)` and `str(docker)`, which read back as the ports when they are not negative |
| Argv.RunArgv | lambdado_pipeline.py:69-74 | the `docker run --rm` argv: `-d` when detached, `-p <mapping>` and `--name <name>` when non-empty, the image last |
| Argv.DockerRunPorts | lambdado_pipeline.py:61-74 | an unmatched port is an error; no ports give no `-p`; both give `-p host:docker` |
| Pipeline.CheckCallRun | lambdado_pipeline.py:51 | `check_call` runs its command and raises `CalledProcessError` with the code exactly when the code is non-zero |
| Pipeline.CheckCall | lambdado_pipeline.py:51 | appends the command to the trace and returns what `CheckCallRun` says |
| Pipeline.Resolve | lambdado_pipeline.py:159-160 | `EcrRepoUri(repo_uri)` when the URI is text; the steps' lemmas state that a URI that does not parse runs no command |
| Pipeline.DockerBuildRun | lambdado_pipeline.py:43-51 | the commands and result of `docker_build`; DockerBuildCommands states them |
| Pipeline.DockerRunRun | lambdado_pipeline.py:54-76 | the commands and result of `docker_run`; DockerRunPortError states its error case |
| Pipeline.PushRun | lambdado_pipeline.py:189-232 | the commands and result of `docker_push_to_ecr`; PushOrder, PushFirstFailure and PushFailure state them |
| Pipeline.UpdateRun | lambdado_pipeline.py:248-271 | the commands and result of `lambda_function_update`; UpdateOrder and UpdateLateWaitFails state them |
| Pipeline.DeleteByJsonRun | lambdado_pipeline.py:157-169 | the commands and result of `ecr_delete_images_by_json`; DeleteByJsonCommands states them |
| Pipeline.DeleteAllRun | lambdado_pipeline.py:172-186 | the commands and result of `ecr_delete_images_all`; DeleteAllCommands states them |
| Pipeline.DockerBuild | lambdado_pipeline.py:43-51 | the trace grows by the commands of `DockerBuildRun`, and the result is its result |
| Pipeline.DockerBuildCommands | lambdado_pipeline.py:46-51 | `docker_build` runs exactly one command, the `docker build` argv |
| Pipeline.DockerRun | lambdado_pipeline.py:54-76 | the trace grows by the commands of `DockerRunRun`, and the result is its result |
| Pipeline.DockerRunPortError | lambdado_pipeline.py:61-64 | an unmatched port raises `ValueError` before any command, and only then |
| Pipeline.DockerStopRun | lambdado_pipeline.py:79-81 | `docker_stop` runs exactly `docker container stop <name>` |
| Pipeline.DockerStop | lambdado_pipeline.py:79-81 | the trace grows by that command, and the result is that of `check_call` |
| Pipeline.DockerPushToEcr | lambdado_pipeline.py:189-232 | the trace grows by the commands of `PushRun`, and the result is its result |
| Pipeline.PushOrder | lambdado_pipeline.py:202-232 | no command when the URI does not parse; otherwise a prefix of password, login, tag and push; the tag runs only after a successful login, the push only after a successful tag; fewer than four commands is an error; success exactly after all four and a digest, returning `uri_without_tag@digest` |
| Pipeline.PushFirstFailure | lambdado_pipeline.py:209-227 | the first of login, tag and push that exits non-zero ends the step with `CalledProcessError` carrying its exit code and argv, and nothing after it runs |
| Pipeline.PushFailure | lambdado_pipeline.py:221-227 | a non-zero push raises `CalledProcessError` with its code and argv, whatever its transcript holds |
| Pipeline.WaitRun | lambdado_pipeline.py:242-245 | waiting runs exactly `aws lambda wait function-updated` for the region and function |
| Pipeline.LambdaFunctionWaitUpdated | lambdado_pipeline.py:235-245 | the trace grows by that command, and the result is that of `check_call` |
| Pipeline.LambdaFunctionUpdate | lambdado_pipeline.py:248-271 | the trace grows by the commands of `UpdateRun`, each answered for its own position, and the result is its result |
| Pipeline.UpdateOrder | lambdado_pipeline.py:261-270 | a prefix of wait, update-function-code, wait; the update runs only after a successful first wait and the second wait only after a successful update; success exactly when all three exit 0; otherwise the error of the last command run |
| Pipeline.UpdateLateWaitFails | lambdado_pipeline.py:261-270 | after a successful wait and update, a failing second wait still makes the step raise its `CalledProcessError`, after all three commands |
| Pipeline.EcrDeleteImagesByJson | lambdado_pipeline.py:157-169 | the trace grows by the commands of `DeleteByJsonRun`, and the result is its result |
| Pipeline.DeleteByJsonCommands | lambdado_pipeline.py:160-169 | a falsy listing runs nothing and succeeds; a truthy one runs exactly one `batch-delete-image` with the URI's region and name; invalid JSON raises |
| Pipeline.EcrDeleteImagesAll | lambdado_pipeline.py:172-186 | the trace grows by the commands of `DeleteAllRun`, and the result is its result |
| Pipeline.DeleteAllCommands | lambdado_pipeline.py:175-186 | an unparsable URI runs nothing; otherwise lists the images first, then deletes exactly the printed listing in one batch when it is truthy; succeeds exactly when listing and deleting succeed or the listing is falsy |
| Pipeline.Shell.Exec | lambdado_pipeline.py:221-225 | starting a command appends it to the trace and returns the world's reply for that position of the trace and that argv |
| Handlers.InvokeCallsAppOnce | lambdarado/_wrap_handler_default.py:43-55 | however wrapped, a handler calls the application exactly once and returns its response unchanged |
| Handlers.Invoke | lambdarado/_wrap_handler_default.py:43-55 | the effects and response of calling a handler; InvokeCallsAppOnce and WrapperBrackets state them |
| Handlers.WrapWithFlags | lambdarado/_lambdarado.py:79-94 | the wrapping decision; WrapWithFlagsSpec states it |
| Handlers.ModeActions | lambdarado/_lambdarado.py:224-233 | the AWS-or-local branch; ModeActionsCases states it |
| Handlers.WrapperBrackets | lambdarado/_wrap_handler_default.py:43-53 | the wrapper logs the request first when asked and the response last when asked; in between the inner handler does what it does alone |
| Handlers.WrapWithFlagsSpec | lambdarado/_lambdarado.py:79-94 | with neither flag the handler itself is returned; with one it is wrapped, still calling the application once and answering as it does |
| Handlers.CallsAppend | lambdarado/_wrap_handler_default.py:44-53 | counting application calls is additive over concatenated effects |
| Handlers.EnvGet | lambdarado/_wrap_handler_default.py:11 | `os.environ.get` is defined exactly for the variables that are set |
| Handlers.ModeActionsCases | lambdarado/_lambdarado.py:224-233 | under AWS: install first, start the client exactly when not called by it, never serve locally; otherwise serve only for `__main__`, on 0.0.0.0 exactly inside docker |
| WrapHandlerDefault.NumberValue | lambdarado/_wrap_handler_default.py:15-16 | an all-digit value is true exactly when some digit is not `0` |
| WrapHandlerDefault.IsTrueEnviron | lambdarado/_wrap_handler_default.py:10-22 | `_is_true_environ`; NumberValue, DefaultDecides, StripFirst, CaseAndSpaceBlind and the tests state its readings |
| WrapHandlerDefault.WrapAwsHandlerDefault | lambdarado/_wrap_handler_default.py:25-59 | `wrap_aws_handler_default`; WrapAwsHandlerDefaultSpec states it |
| WrapHandlerDefault.DefaultDecides | lambdarado/_wrap_handler_default.py:11-22 | `default` decides exactly when the variable is unset or its stripped value is neither a number nor `true`/`false` in some case |
| WrapHandlerDefault.StripFirst | lambdarado/_wrap_handler_default.py:14 | stripping the value first changes nothing |
| WrapHandlerDefault.CaseAndSpaceBlind | lambdarado/_wrap_handler_default.py:14-21 | values that agree up to case and surrounding whitespace read the same |
| WrapHandlerDefault.LowerDigits | lambdarado/_wrap_handler_default.py:15-17 | digit strings that are equal after `lower()` are equal |
| WrapHandlerDefault.PaddedWord | lambdarado/_wrap_handler_default.py:14-22 | a space-padded word that is not a number reads as `true`, `false` or the default, after lower-casing |
| WrapHandlerDefault.TestTrue | tests/test_funcs.py:8-10 | `" tRuE "` is true |
| WrapHandlerDefault.TestFalse | tests/test_funcs.py:12-14 | `" FaLsE "` is false |
| WrapHandlerDefault.TestZero | tests/test_funcs.py:16-18 | `" 0 "` is false |
| WrapHandlerDefault.TestZeroZero | tests/test_funcs.py:20-22 | `" 00 "` is false |
| WrapHandlerDefault.TestNonZero | tests/test_funcs.py:24-26 | `"23"` is true |
| WrapHandlerDefault.TestOne | tests/test_funcs.py:28-30 | `" 1 "` is true |
| WrapHandlerDefault.TestOtherText | tests/test_funcs.py:32-38 | `"labuda"` reads as the default, true or false |
| WrapHandlerDefault.TestUnset | tests/test_funcs.py:40-52 | an unset variable reads as the default |
| WrapHandlerDefault.WrapAwsHandlerDefaultSpec | lambdarado/_wrap_handler_default.py:25-59 | unwrapped exactly when neither variable is true (and so when both are unset); otherwise wrapped with the two flags; the response and the single call are preserved |
| ModuleNames.FileToModuleName | lambdarado/_lambdarado.py:41-55 | a name exactly when the file exists and its path ends in `.py` in any case; the name is three characters shorter than the path |
| ModuleNames.ModuleNameChars | lambdarado/_lambdarado.py:52-53 | each character of the path before `.py` is kept, separators become dots, no separator is left, and dots turn back into the path when it had none |
| ModuleNames.UpperExtension | lambdarado/_lambdarado.py:50 | `.PY` is recognised like `.py` |
| ModuleNames.NotAScript | lambdarado/lambdarado.py:44-53 | a missing file or a path not ending in `.py` gives no name, each with its own assertion |
| ModuleNames.SubpackageExample | tests/test_local.py:70 | the script of the `-m subpkg.mainmain` test, `subpkg/mainmain.py`, becomes `subpkg.mainmain` under `file_to_module_name` (lambdarado/lambdarado.py:53-58) |
| Lambdarado.ZeroFlagSpec | lambdarado/_lambdarado.py:74-77 | a flag is set exactly when its variable holds `0` (`str(None)` never does) |
| Lambdarado.ZeroFlag | lambdarado/_lambdarado.py:74-77 | `str(os.environ.get(key)) == '0'`; ZeroFlagSpec and FlagReadings state it |
| Lambdarado.PyStr | lambdarado/_lambdarado.py:75 | `str()` of an optional string, `None` printing as `None`; ZeroFlagSpec states that an unset variable never reads as `0` |
| Lambdarado.FlagReadings | lambdarado/_lambdarado.py:74-77 | `0` sets this module's flag but not the older module's or `_is_true_environ`'s; `1` the reverse |
| Lambdarado.DigitReadings | lambdarado/_wrap_handler_default.py:15-16 | `_is_true_environ` reads `0` as false and `1` as true |
| Lambdarado.DefaultWrapper.constructor | lambdarado/_lambdarado.py:97-98 | both flag attributes start as None |
| Lambdarado.DefaultWrapper.Wrap | lambdarado/_lambdarado.py:65-94 | the first call sets both flags from the environment, later calls keep them; the result is wrapped exactly when a flag is set |
| Lambdarado.AssignLambdaHandler | lambdarado/_lambdarado.py:157-174 | installs exactly when the module is loaded, not None and has no `handler`; then only `handler` changes to the app's handler, through `wrap_handler` when given; the default wrapper sets its flags from the environment on first use and keeps cached flags; otherwise nothing changes |
| Lambdarado.StartModes | lambdarado/_lambdarado.py:209-233 | the app is built and configured first; under AWS the handler is installed, the client starts only when not the caller, no local server; otherwise serve only for `__main__` |
| Lambdarado.Start | lambdarado/_lambdarado.py:209-233 | what `start` does, in order; StartModes and StartNeedsScript state it |
| Lambdarado.StartNeedsScript | lambdarado/_lambdarado.py:209-210 | `start` stops at an assertion exactly when the script is missing or not a `.py` file |
| LegacyLambdarado.OneFlag | lambdarado/lambdarado.py:63-64 | a flag is set exactly when its variable holds `1` |
| LegacyLambdarado.LegacyHandler | lambdarado/lambdarado.py:131-142 | the older module's handler; LegacyHandlerSpec states it |
| LegacyLambdarado.LegacyHandlerSpec | lambdarado/lambdarado.py:131-142 | the handler is wrapped exactly when a variable holds `1`, and it calls the app once and returns its response |
| LegacyLambdarado.AssignLambdaHandler | lambdarado/lambdarado.py:121-144 | installs exactly when the module is loaded, not None and has no `handler`; then only `handler` changes; otherwise nothing changes |
| LegacyLambdarado.HybridServerModes | lambdarado/lambdarado.py:147-170 | configure first, never build the app; under AWS install, then start the client unless it is the caller; otherwise serve for `__main__` and do nothing else |
| LegacyLambdarado.HybridServer | lambdarado/lambdarado.py:147-170 | what `hybrid_server` does, in order; HybridServerModes states it |
| Strings.Split | lambdado_pipeline.py:92 | `str.split(c)`: at least one piece; JoinSplit and SplitPieces state that the pieces join back and hold no `c` |
| Strings.Strip | lambdarado/_wrap_handler_default.py:14 | `str.strip()`: the result neither starts nor ends with whitespace |
| Strings.Lower | lambdarado/_wrap_handler_default.py:17 | `str.lower()` on ASCII: the same length, each character lowered |
| Strings.ReplaceChar | lambdarado/_lambdarado.py:53 | `str.replace` of one character: the same length, each `from` made `to` and every other character kept |
| Strings.ReplaceCharBack | lambdarado/_lambdarado.py:53 | replacing into a character the text does not hold can be undone |
| Strings.IsDigits | lambdarado/_wrap_handler_default.py:15 | ASCII `str.isdigit()`; NumberValue and DefaultDecides state its role |
| Strings.DigitsValue | lambdarado/_wrap_handler_default.py:16 | `int()` of a digit string; DigitsValueNonZero and NatToStringValue state its value |
| Strings.IntToString | lambdado_pipeline.py:65 | `str()` of a port: non-empty and without `:`; PortMappingRoundTrip states that the port reads back |
| Strings.JoinSplit | lambdado_pipeline.py:92 | `split('.')` loses nothing: joining the pieces gives back the string |
| Strings.SplitPieces | lambdado_pipeline.py:133 | no piece of `split(c)` contains `c` |
| Strings.StripIsInfix | lambdarado/_wrap_handler_default.py:14 | `strip()` keeps what lies between leading and trailing whitespace |
| Strings.StripIdempotent | lambdarado/_wrap_handler_default.py:14 | stripping twice is stripping once |
| Strings.DigitsValueNonZero | lambdarado/_wrap_handler_default.py:16 | `int(s) != 0` exactly when some digit is not `0` |
| Strings.NatToStringValue | lambdado_pipeline.py:66 | `int(str(n)) == n` for a natural number |

## Left out

- Process execution. `check_call`, `run`, `Popen` and `check_output` are the `Shell`'s trace plus a caller-given `world`. It supplies the exit code and output of the command started at each position of the trace, given its argv. The password process's pipe into `docker login` is not modelled, and neither is its exit code, which the code never checks.
- The polling behind `aws lambda wait function-updated`: it belongs to the AWS CLI.
- JSON decoding in `ecr_delete_images_by_json`. A caller-given function says whether `json.loads` of a text is truthy, or that it is not JSON.
- `print_header`, `set_header_prefix` and every `print`: console output only. `json.dumps` of logged events and responses is a `RequestLogged`/`ResponseLogged` effect holding the JSON text.
- The header lines the newer wrapper prints around each logged block are part of the one logged effect.
- Stack and frame introspection (`is_called_by_awslambdaric`, `caller_module`), `os.path.abspath`, `relpath` and `exists`, `/.dockerenv`, and `os.environ`. These are parameters: the relative path, the separator, whether the file exists, whether the caller is `__main__` or the runtime client, and whether it runs in docker or AWS. The environment is a map.
- Foreign code is opaque. `make_lambda_handler` gives `AppHandler(app)`, whose answers come from a caller-given function. `ric_main` and Flask's `app.run` are the `StartRic` and `RunServer` actions, and `get_app` is `CreateApp`.
- Caller-supplied `wrap_handler` functions are total functions on handler values.
- `sys.modules` entries are modules or `None`. A module object that is falsy in some other way is not modelled, so `if not module` is read as `is None`.
- The wrapper of `_wrap_aws_handler_default` reads the function attributes on every request. The model takes their values when it wraps, which is the same because nothing sets them again.
- Python's Unicode `str.isdigit`, `lower` and `int`: the model uses ASCII digits and ASCII case.
- Elements of a list or tuple given to `_combine` are modelled as strings: the code extends the argv with them unchecked.
- Argv.Flatten: an item of another type is identified by its representation only.
- Pipeline.PushOrder: does not model `cp.args` beyond the push argv that the code passes to `run`.
- `EcrRepoUri` attributes are taken as plain strings. `str(m.group(k))` is the group itself.
- `ecr_delete_images_all` is modelled for a text URI, its declared type. Given an already parsed URI, the code would fail inside `re.match`.
