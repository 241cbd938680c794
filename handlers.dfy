/**
 * What the library's entry points install and run: AWS Lambda handlers,
 * the logging wrapper around them, the table of loaded modules the handler
 * is installed into, and the choice between running under AWS Lambda and
 * serving locally.
 */
module Handlers {

  import opened Wrappers

  /** An event or a response, as the JSON text the logging wrapper prints. */
  type Json = string

  /** What invoking a handler does, in order. */
  datatype Effect =
    | RequestLogged(event: Json)
    | AppCalled(app: nat, event: Json)
    | ResponseLogged(response: Json)

  /**
   * A handler: the one `make_lambda_handler` builds around the web
   * application numbered `app`, or the logging wrapper around another
   * handler, with its two flags.
   */
  datatype Handler =
    | AppHandler(app: nat)
    | Logging(inner: Handler, logRequests: bool, logResponses: bool)

  /** The effects of one invocation and the response it returns. */
  datatype Outcome = Outcome(effects: seq<Effect>, response: Json)

  /**
   * Invoking `h` on `event`. `respond` is what the application answers;
   * the wrapper prints the request when asked, calls the inner handler,
   * prints the response when asked and returns it.
   */
  function Invoke(h: Handler, respond: (nat, Json) -> Json, event: Json): Outcome
    decreases h
  {
    match h
    case AppHandler(app) => Outcome([AppCalled(app, event)], respond(app, event))
    case Logging(inner, logRequests, logResponses) =>
      var o := Invoke(inner, respond, event);
      Outcome((if logRequests then [RequestLogged(event)] else []) + o.effects
              + (if logResponses then [ResponseLogged(o.response)] else []),
              o.response)
  }

  /** The application at the bottom of a stack of wrappers. */
  function App(h: Handler): nat
    decreases h
  {
    match h
    case AppHandler(app) => app
    case Logging(inner, _, _) => App(inner)
  }

  /** How many times the application is called in a sequence of effects. */
  function Calls(effects: seq<Effect>): (n: nat)
    ensures n <= |effects|
    decreases |effects|
  {
    if |effects| == 0 then 0
    else (if effects[0].AppCalled? then 1 else 0) + Calls(effects[1..])
  }

  lemma {:induction false} CallsAppend(a: seq<Effect>, b: seq<Effect>)
    ensures Calls(a + b) == Calls(a) + Calls(b)
    decreases |a|
  {
    if |a| == 0 {
      assert a + b == b;
    } else {
      assert (a + b)[0] == a[0];
      assert (a + b)[1..] == a[1..] + b;
      CallsAppend(a[1..], b);
    }
  }

  /** Log lines call nothing. */
  lemma CallsLogs(logRequests: bool, logResponses: bool, event: Json, response: Json)
    ensures Calls(if logRequests then [RequestLogged(event)] else []) == 0
    ensures Calls(if logResponses then [ResponseLogged(response)] else []) == 0
  {
    assert [RequestLogged(event)][1..] == [];
    assert [ResponseLogged(response)][1..] == [];
  }

  /**
   * However deeply wrapped, a handler calls its application exactly once
   * and returns the application's response unchanged.
   */
  lemma {:induction false} InvokeCallsAppOnce(h: Handler, respond: (nat, Json) -> Json, event: Json)
    ensures Calls(Invoke(h, respond, event).effects) == 1
    ensures Invoke(h, respond, event).response == respond(App(h), event)
    decreases h
  {
    match h
    case AppHandler(app) =>
      assert [AppCalled(app, event)][1..] == [];
    case Logging(inner, logRequests, logResponses) =>
      var o := Invoke(inner, respond, event);
      InvokeCallsAppOnce(inner, respond, event);
      var pre: seq<Effect> := if logRequests then [RequestLogged(event)] else [];
      var post: seq<Effect> := if logResponses then [ResponseLogged(o.response)] else [];
      CallsLogs(logRequests, logResponses, event, o.response);
      CallsAppend(pre, o.effects);
      CallsAppend(pre + o.effects, post);
  }

  /**
   * The wrapper brackets the inner handler: the request is printed first
   * when asked, the response last when asked, and in between the inner
   * handler does exactly what it does alone.
   */
  lemma WrapperBrackets(inner: Handler, logRequests: bool, logResponses: bool,
                        respond: (nat, Json) -> Json, event: Json)
    ensures var o, i := Invoke(Logging(inner, logRequests, logResponses), respond, event),
                        Invoke(inner, respond, event);
      var a := if logRequests then 1 else 0;
      && o.response == i.response
      && |o.effects| == a + |i.effects| + (if logResponses then 1 else 0)
      && o.effects[a..a + |i.effects|] == i.effects
      && (logRequests ==> o.effects[0] == RequestLogged(event))
      && (logResponses ==> o.effects[|o.effects| - 1] == ResponseLogged(i.response))
  {
    var i := Invoke(inner, respond, event);
    var pre: seq<Effect> := if logRequests then [RequestLogged(event)] else [];
    var post: seq<Effect> := if logResponses then [ResponseLogged(i.response)] else [];
    var all := pre + i.effects + post;
    assert all[|pre|..|pre| + |i.effects|] == i.effects;
  }

  /** The wrapping decision: a logging wrapper only when something is to be logged. */
  function WrapWithFlags(logRequests: bool, logResponses: bool, h: Handler): Handler {
    if logRequests || logResponses then Logging(h, logRequests, logResponses) else h
  }

  /**
   * With no flag the handler is returned itself; with a flag it is wrapped,
   * and the result still calls the application once and answers as it does.
   */
  lemma WrapWithFlagsSpec(logRequests: bool, logResponses: bool, h: Handler,
                          respond: (nat, Json) -> Json, event: Json)
    ensures var w := WrapWithFlags(logRequests, logResponses, h);
      && (!logRequests && !logResponses <==> w == h)
      && App(w) == App(h)
      && Invoke(w, respond, event).response == Invoke(h, respond, event).response
      && Calls(Invoke(w, respond, event).effects) == 1
      && (logRequests ==> Invoke(w, respond, event).effects[0] == RequestLogged(event))
      && (logResponses ==> var e := Invoke(w, respond, event).effects;
            e[|e| - 1] == ResponseLogged(Invoke(h, respond, event).response))
  {
    var w := WrapWithFlags(logRequests, logResponses, h);
    InvokeCallsAppOnce(w, respond, event);
    InvokeCallsAppOnce(h, respond, event);
    if logRequests || logResponses {
      WrapperBrackets(h, logRequests, logResponses, respond, event);
    }
    NotSelfWrapped(h, logRequests, logResponses);
  }

  /** A handler is never its own wrapper. */
  lemma NotSelfWrapped(h: Handler, logRequests: bool, logResponses: bool)
    ensures Logging(h, logRequests, logResponses) != h
  {
    assert h < Logging(h, logRequests, logResponses);
  }

  // ---- the environment ----

  /** `os.environ`. */
  type Environ = map<string, string>

  /** `os.environ.get(key)`. */
  function EnvGet(env: Environ, key: string): (r: Option<string>)
    ensures r.Some? <==> key in env
  {
    if key in env then Some(env[key]) else None
  }

  const RequestsVar := "LOG_LAMBDA_REQUESTS"
  const ResponsesVar := "LOG_LAMBDA_RESPONSES"

  // ---- the table of loaded modules ----

  /** What a module's namespace maps a name to. */
  datatype Value = HandlerValue(handler: Handler) | OtherValue(repr: string)

  const HandlerKey := "handler"

  /** A loaded module: its namespace, `module.__dict__`, changed in place. */
  class PyModule {
    var dict: map<string, Value>

    constructor(dict: map<string, Value>)
      ensures this.dict == dict
    {
      this.dict := dict;
    }
  }

  /**
   * `sys.modules` as a map from names to modules; `null` stands for an entry
   * that is `None`. Other falsy module objects are not modelled.
   */
  type Modules = map<string, PyModule?>

  /** The module object a name denotes, if any, as a frame. */
  function Target(modules: Modules, name: string): set<object> {
    if name in modules && modules[name] != null then {modules[name]} else {}
  }

  /** A handler is installed exactly when the module is loaded, not `None`, and has no `handler` yet. */
  predicate Installable(modules: Modules, name: string)
    reads Target(modules, name)
  {
    name in modules && modules[name] != null && HandlerKey !in modules[name].dict
  }

  // ---- running under AWS Lambda or locally ----

  /** What an entry point does, in order. */
  datatype Action =
    | CreateApp
    | Configure(inDocker: bool, inAws: bool)
    | InstallHandler(moduleName: string)
    | StartRic(handlerArg: string)
    | RunServer(host: string)

  /**
   * The branch both entry points share: under AWS Lambda, install the
   * handler and start the runtime interface client unless it is the caller;
   * otherwise serve locally, on every interface inside docker, only when the
   * caller is the main script.
   */
  function ModeActions(inAws: bool, calledByRic: bool, callerIsMain: bool, inDocker: bool,
                       moduleName: string): seq<Action> {
    if inAws then
      [InstallHandler(moduleName)] + (if calledByRic then [] else [StartRic(moduleName + ".handler")])
    else if callerIsMain then
      [RunServer(if inDocker then "0.0.0.0" else "127.0.0.1")]
    else []
  }

  /**
   * Under AWS Lambda the local server never starts, the handler is installed
   * first and the client is started only when it is not the caller; outside
   * AWS nothing is installed and the server runs only for the main script.
   */
  lemma ModeActionsCases(inAws: bool, calledByRic: bool, callerIsMain: bool, inDocker: bool,
                         moduleName: string)
    ensures var plan := ModeActions(inAws, calledByRic, callerIsMain, inDocker, moduleName);
      && (inAws ==> plan != [] && plan[0] == InstallHandler(moduleName)
                    && forall k :: 0 <= k < |plan| ==> !plan[k].RunServer?)
      && (inAws ==> (!calledByRic <==> exists k :: 0 <= k < |plan| && plan[k] == StartRic(moduleName + ".handler")))
      && (!inAws ==> forall k :: 0 <= k < |plan| ==> plan[k].RunServer?)
      && (!inAws ==> (plan != [] <==> callerIsMain))
      && (forall k :: 0 <= k < |plan| && plan[k].RunServer? ==> (plan[k].host == "0.0.0.0" <==> inDocker))
  {
    var plan := ModeActions(inAws, calledByRic, callerIsMain, inDocker, moduleName);
    if inAws && !calledByRic {
      assert plan[1] == StartRic(moduleName + ".handler");
    }
  }
}
