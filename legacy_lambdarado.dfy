/**
 * The older entry point, `hybrid_server(app)`: the same mode decision as
 * `start`, for an application built by the caller, with the logging flags
 * read when the module is imported and compared with `1`.
 */
module LegacyLambdarado {

  import opened Wrappers
  import opened Strings
  import opened Handlers
  import opened ModuleNames

  /** A logging flag of this module: `os.environ.get(key) == '1'`, read once at import. */
  function OneFlag(env: Environ, key: string): (b: bool)
    ensures b <==> key in env && env[key] == "1"
  {
    EnvGet(env, key) == Some("1")
  }

  /** The handler this module installs: the application's, wrapped when a flag is set. */
  function LegacyHandler(env: Environ, app: nat): Handler {
    WrapWithFlags(OneFlag(env, RequestsVar), OneFlag(env, ResponsesVar), AppHandler(app))
  }

  /**
   * The installed handler is wrapped exactly when one of the variables
   * holds `1`; either way it calls the application once and returns its
   * response.
   */
  lemma LegacyHandlerSpec(env: Environ, app: nat, respond: (nat, Json) -> Json, event: Json)
    ensures var h := LegacyHandler(env, app);
      && (h != AppHandler(app) <==>
            (RequestsVar in env && env[RequestsVar] == "1") || (ResponsesVar in env && env[ResponsesVar] == "1"))
      && App(h) == app
      && Invoke(h, respond, event).response == respond(app, event)
      && Calls(Invoke(h, respond, event).effects) == 1
  {
    WrapWithFlagsSpec(OneFlag(env, RequestsVar), OneFlag(env, ResponsesVar), AppHandler(app), respond, event);
    InvokeCallsAppOnce(AppHandler(app), respond, event);
  }

  /**
   * `assign_lambda_handler`: when the module is loaded, not `None` and has
   * no `handler`, sets `handler` to the application's handler, wrapped by
   * the flags of the environment `env` the module was imported with.
   * Nothing else changes, and nothing at all otherwise.
   */
  method AssignLambdaHandler(modules: Modules, moduleName: string, app: nat, env: Environ)
    returns (installed: bool)
    modifies Target(modules, moduleName)
    ensures installed == old(Installable(modules, moduleName))
    ensures !installed ==> unchanged(Target(modules, moduleName))
    ensures installed ==>
      modules[moduleName].dict == old(modules[moduleName].dict)[HandlerKey := HandlerValue(LegacyHandler(env, app))]
  {
    if moduleName !in modules {
      return false;
    }
    var m := modules[moduleName];
    if m == null {
      return false;
    }
    if HandlerKey in m.dict {
      return false;
    }
    var handler := AppHandler(app);
    var logRequests, logResponses := OneFlag(env, RequestsVar), OneFlag(env, ResponsesVar);
    if logRequests || logResponses {
      handler := Logging(handler, logRequests, logResponses);
    }
    m.dict := m.dict[HandlerKey := HandlerValue(handler)];
    installed := true;
  }

  /** `hybrid_server(app)`: the module name, then configuration and the mode decision. */
  function HybridServer(relative: string, sep: char, fileExists: bool, callerIsMain: bool,
                        inDocker: bool, inAws: bool, calledByRic: bool): Result<seq<Action>, NameError> {
    match FileToModuleName(relative, sep, fileExists)
    case Err(e) => Err(e)
    case Ok(moduleName) =>
      Ok([Configure(inDocker, inAws)] + ModeActions(inAws, calledByRic, callerIsMain, inDocker, moduleName))
  }

  /**
   * The application is configured first and never built here; under AWS
   * Lambda the handler is installed, the client starts only when it is not
   * the caller and the server never runs; otherwise the server runs for
   * the main script and nothing happens for any other caller.
   */
  lemma HybridServerModes(relative: string, sep: char, callerIsMain: bool, inDocker: bool, inAws: bool,
                          calledByRic: bool)
    requires EndsWith(Lower(relative), PyExtension)
    ensures var name := FileToModuleName(relative, sep, true).value;
      var r := HybridServer(relative, sep, true, callerIsMain, inDocker, inAws, calledByRic);
      && r.Ok?
      && r.value[0] == Configure(inDocker, inAws)
      && CreateApp !in r.value
      && (inAws ==> r.value[1] == InstallHandler(name)
                    && (forall k :: 1 <= k < |r.value| ==> !r.value[k].RunServer?)
                    && (!calledByRic <==> StartRic(name + ".handler") in r.value))
      && (!inAws && callerIsMain ==> r.value[1..] == [RunServer(if inDocker then "0.0.0.0" else "127.0.0.1")])
      && (!inAws && !callerIsMain ==> r.value == [Configure(inDocker, inAws)])
  {
    var name := FileToModuleName(relative, sep, true).value;
    var mode := ModeActions(inAws, calledByRic, callerIsMain, inDocker, name);
    var plan := [Configure(inDocker, inAws)] + mode;
    ModeActionsCases(inAws, calledByRic, callerIsMain, inDocker, name);
    assert forall k :: 1 <= k < |plan| ==> plan[k] == mode[k - 1];
    assert plan[1..] == mode;
    assert StartRic(name + ".handler") in plan <==> StartRic(name + ".handler") in mode;
    assert CreateApp !in mode;
  }
}
