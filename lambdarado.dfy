/**
 * The library's entry point, `start`: it finds the module name of the
 * calling script, builds the web application and either installs the AWS
 * Lambda handler into that module or serves locally. By default the
 * handler goes through a logging wrapper whose two flags are read from the
 * environment once, on first use.
 */
module Lambdarado {

  import opened Wrappers
  import opened Handlers
  import opened ModuleNames
  import opened Strings
  import opened WrapHandlerDefault

  /** Python's `str(x)` on an optional string: `None` prints as `None`. */
  function PyStr(v: Option<string>): string {
    match v
    case None => "None"
    case Some(s) => s
  }

  /** A logging flag of this module: `str(os.environ.get(key)) == '0'`. */
  function ZeroFlag(env: Environ, key: string): bool {
    PyStr(EnvGet(env, key)) == "0"
  }

  /** The flag is set exactly when the variable holds `0`; an unset variable reads as `None`. */
  lemma ZeroFlagSpec(env: Environ, key: string)
    ensures ZeroFlag(env, key) <==> key in env && env[key] == "0"
  {
    assert "None" != "0";
  }

  /**
   * The variables' readings in the three places the library reads them:
   * here `0` turns logging on and `1` leaves it off, while the older entry
   * point (`== '1'`) and `_is_true_environ` read them the other way round.
   */
  lemma FlagReadings(env: Environ, key: string)
    ensures key in env && env[key] == "0" ==>
      ZeroFlag(env, key) && EnvGet(env, key) != Some("1") && !IsTrueEnviron(EnvGet(env, key), false)
    ensures key in env && env[key] == "1" ==>
      !ZeroFlag(env, key) && EnvGet(env, key) == Some("1") && IsTrueEnviron(EnvGet(env, key), false)
  {
    ZeroFlagSpec(env, key);
    DigitReadings();
  }

  /** `_is_true_environ` reads `0` as false and `1` as true. */
  lemma DigitReadings()
    ensures !IsTrueEnviron(Some("0"), false) && IsTrueEnviron(Some("1"), false)
  {
    assert LeadingSpaces("0") == 0 && TrailingSpaces("0") == 0;
    assert Strip("0") == "0";
    assert DigitsValue("0") == 0;
    assert LeadingSpaces("1") == 0 && TrailingSpaces("1") == 0;
    assert Strip("1") == "1";
    assert DigitsValue("1") == 1;
  }

  /** A flag attribute counts as set only when it holds `True`; `None` is falsy. */
  function Truthy(flag: Option<bool>): bool {
    flag == Some(true)
  }

  /**
   * `_wrap_aws_handler_default` with its two function attributes, which
   * start as `None` and are computed together on the first call.
   */
  class DefaultWrapper {
    var logRequests: Option<bool>
    var logResponses: Option<bool>

    constructor()
      ensures logRequests.None? && logResponses.None?
    {
      logRequests := None;
      logResponses := None;
    }

    /**
     * Wraps `h`: on the first call both flags are read from `env`, later
     * calls keep them; the handler is wrapped only when a flag is set.
     */
    method Wrap(env: Environ, h: Handler) returns (r: Handler)
      modifies this
      ensures old(logRequests).None? ==>
        logRequests == Some(ZeroFlag(env, RequestsVar)) && logResponses == Some(ZeroFlag(env, ResponsesVar))
      ensures old(logRequests).Some? ==> logRequests == old(logRequests) && logResponses == old(logResponses)
      ensures r == WrapWithFlags(Truthy(logRequests), Truthy(logResponses), h)
    {
      if logRequests.None? {
        logRequests := Some(ZeroFlag(env, RequestsVar));
        logResponses := Some(ZeroFlag(env, ResponsesVar));
      }
      r := WrapWithFlags(Truthy(logRequests), Truthy(logResponses), h);
    }
  }

  /** The `wrap_handler` argument: none, a caller's function, or the default wrapper. */
  datatype WrapArg = NoWrap | CustomWrap(f: Handler -> Handler) | DefaultWrap(wrapper: DefaultWrapper)

  function WrapperFrame(wrap: WrapArg): set<object> {
    if wrap.DefaultWrap? then {wrap.wrapper} else {}
  }

  /**
   * `assign_lambda_handler`: when the module is loaded, not `None` and has
   * no `handler`, sets `handler` to the application's handler, passed
   * through `wrap_handler` when one is given. The default wrapper reads its
   * flags on its first use and keeps them after. Nothing else changes, and
   * nothing at all when no handler is installed.
   */
  method AssignLambdaHandler(modules: Modules, moduleName: string, app: nat, wrap: WrapArg, env: Environ)
    returns (installed: bool)
    modifies Target(modules, moduleName), WrapperFrame(wrap)
    ensures installed == old(Installable(modules, moduleName))
    ensures !installed ==> unchanged(Target(modules, moduleName)) && unchanged(WrapperFrame(wrap))
    ensures installed ==> modules[moduleName].dict == old(modules[moduleName].dict)[HandlerKey := HandlerValue(
      match wrap
      case NoWrap => AppHandler(app)
      case CustomWrap(f) => f(AppHandler(app))
      case DefaultWrap(w) => WrapWithFlags(Truthy(w.logRequests), Truthy(w.logResponses), AppHandler(app)))]
    ensures installed && wrap.DefaultWrap? && old(wrap.wrapper.logRequests).None? ==>
      wrap.wrapper.logRequests == Some(ZeroFlag(env, RequestsVar))
      && wrap.wrapper.logResponses == Some(ZeroFlag(env, ResponsesVar))
    ensures wrap.DefaultWrap? && old(wrap.wrapper.logRequests).Some? ==>
      wrap.wrapper.logRequests == old(wrap.wrapper.logRequests)
      && wrap.wrapper.logResponses == old(wrap.wrapper.logResponses)
  {
    if moduleName !in modules {
      return false;
    }
    var m := modules[moduleName];
    if m == null {
      return false;
    }
    if HandlerKey in m.dict {
      return false;
    }
    var handler := AppHandler(app);
    match wrap {
      case NoWrap =>
      case CustomWrap(f) =>
        handler := f(handler);
      case DefaultWrap(w) =>
        handler := w.Wrap(env, handler);
    }
    m.dict := m.dict[HandlerKey := HandlerValue(handler)];
    installed := true;
  }

  /**
   * `start`: the module name of the calling script, or the assertion it
   * fails; then the application is built and configured, and the mode
   * decided.
   */
  function Start(relative: string, sep: char, fileExists: bool, callerIsMain: bool,
                 inDocker: bool, inAws: bool, calledByRic: bool): Result<seq<Action>, NameError> {
    match FileToModuleName(relative, sep, fileExists)
    case Err(e) => Err(e)
    case Ok(moduleName) =>
      Ok([CreateApp, Configure(inDocker, inAws)] + ModeActions(inAws, calledByRic, callerIsMain, inDocker, moduleName))
  }

  /**
   * Once the module name is known, the application is built and configured
   * first; under AWS Lambda the handler is installed into the script's
   * module, the client starts only when it is not the caller, and the
   * local server never runs; outside AWS it runs only for the main script.
   */
  lemma StartModes(relative: string, sep: char, callerIsMain: bool, inDocker: bool, inAws: bool,
                   calledByRic: bool)
    requires EndsWith(Lower(relative), PyExtension)
    ensures var name := FileToModuleName(relative, sep, true).value;
      var r := Start(relative, sep, true, callerIsMain, inDocker, inAws, calledByRic);
      && r.Ok?
      && |r.value| >= 2 && r.value[0] == CreateApp && r.value[1] == Configure(inDocker, inAws)
      && (inAws ==> r.value[2] == InstallHandler(name)
                    && (forall k :: 2 <= k < |r.value| ==> !r.value[k].RunServer?)
                    && (!calledByRic <==> StartRic(name + ".handler") in r.value))
      && (!inAws ==> (|r.value| > 2 <==> callerIsMain)
                     && forall k :: 2 <= k < |r.value| ==> r.value[k].RunServer?)
  {
    var name := FileToModuleName(relative, sep, true).value;
    var mode := ModeActions(inAws, calledByRic, callerIsMain, inDocker, name);
    var plan := [CreateApp, Configure(inDocker, inAws)] + mode;
    ModeActionsCases(inAws, calledByRic, callerIsMain, inDocker, name);
    assert forall k :: 2 <= k < |plan| ==> plan[k] == mode[k - 2];
    assert StartRic(name + ".handler") in plan <==> StartRic(name + ".handler") in mode;
  }

  /** A script that is missing or not a Python file stops `start` before anything else. */
  lemma StartNeedsScript(relative: string, sep: char, fileExists: bool, callerIsMain: bool,
                         inDocker: bool, inAws: bool, calledByRic: bool)
    ensures Start(relative, sep, fileExists, callerIsMain, inDocker, inAws, calledByRic).Err?
      <==> !fileExists || !EndsWith(Lower(relative), PyExtension)
  {
  }
}
