/**
 * The controller-resolution and dispatch decision of the front-controller
 * script, as values: what the router answered, what the reflection checks
 * (`class_exists`, `method_exists`, `is_callable`) say, which 404 override is
 * configured, and, from these, the decision the script takes and everything
 * it does observably (hooks, status changes, construction, calls, output).
 *
 * `Script` is the reference the imperative `FrontController.Lifecycle.Run`
 * is proved against; the lemmas below state what the script promises.
 */
module Dispatch {
  import opened Output

  datatype Option<T> = None | Some(value: T)

  /** The five hook points the script triggers. */
  datatype Hook = PreSystem | PreController | PostControllerConstructor | PostController | PostSystem

  /**
   * What `$router->handle($path)` returned: a closure (`run(params)` is
   * what it writes and returns, and the status it sets, if any), or a class
   * name. A null result is `Name("")`.
   */
  datatype Controller =
    | Callable(run: seq<string> -> Effect)
    | Name(name: string)

  /** The router's answer: a controller, the method name and the parameters, or a redirect route. */
  datatype RouterAnswer =
    | Handled(controller: Controller, methodName: string, params: seq<string>)
    | RedirectRoute(url: string, code: int)

  /** What `$router->get404Override()` returned. */
  datatype Override404 =
    | NoOverride                               // null
    | FalsyOverride                            // false, '', 0, '0' or []: falsy, but set
    | ClosureOverride(effect: Effect)          // a Closure; what it writes and returns, and the status it sets
    | PairOverride(cls: string, methodName: string) // an array [class, method]
    | OtherOverride                            // any other truthy value

  /** The call made on a constructed controller. */
  datatype Invocation =
    | Remap(cls: string, methodName: string, params: seq<string>)   // $class->_remap($method, ...$params)
    | Direct(cls: string, methodName: string, params: seq<string>)  // $class->$method(...$params)

  /** What an invoked controller or closure does: the text it writes and the status it sets, if any. */
  datatype Effect = Effect(output: string, status: Option<int>)

  /** The facts the script asks of code outside it. */
  datatype World = World(
    classes: set<string>,              // class_exists($c, true)
    remaps: set<string>,               // method_exists($c, '_remap')
    callables: set<(string, string)>,  // is_callable([$c, $m], false)
    override: Override404,
    invoke: Invocation -> Effect,
    cliView: string,                   // what Views/errors/cli/error_404.php writes
    htmlView: string)                  // what Views/errors/html/error_404.php writes

  /** Execution context and configuration read by the script. */
  datatype Config = Config(isCli: bool, production: bool, toolbarEnabled: bool)

  /** Exit status of the not-found path ("unknown file"). */
  const UnknownFileExit: int := 4

  /** PHP's `empty()` on a class name: the empty string or "0". */
  predicate IsEmptyName(name: string)
  {
    name == "" || name == "0"
  }

  /** `$method[0] === '_'`: the method is private by convention. */
  predicate IsPrivateMethod(methodName: string)
  {
    |methodName| > 0 && methodName[0] == '_'
  }

  /**
   * The class exists and the call made on it does not throw: it has
   * `_remap`, or the method is callable.
   */
  predicate Runnable(w: World, cls: string, methodName: string)
  {
    cls in w.classes && (cls in w.remaps || (cls, methodName) in w.callables)
  }

  /**
   * Line 263 consults an override only when it is truthy; line 308 skips
   * construction whenever the variable is set, which every value but null is.
   */
  predicate IsTruthy(o: Override404)
  {
    !o.NoOverride? && !o.FalsyOverride?
  }

  /** A class target passes both not-found checks. */
  predicate IsDispatchable(w: World, cls: string, methodName: string)
  {
    Runnable(w, cls, methodName) && !IsPrivateMethod(methodName)
  }

  /** `_remap` when the class has one, the named method otherwise. */
  function CallFor(w: World, cls: string, methodName: string, params: seq<string>): (call: Invocation)
    ensures call.cls == cls && call.methodName == methodName && call.params == params
    ensures call.Remap? <==> cls in w.remaps
  {
    if cls in w.remaps then Remap(cls, methodName, params) else Direct(cls, methodName, params)
  }

  /** The branch the script takes once the router has answered. */
  datatype Decision =
    | Redirect(url: string, code: int)
    | RunClosure(effect: Effect)          // routed closure echoed
    | EchoOverride(effect: Effect)        // closure override echoed, nothing constructed
    | RunNothing                          // nothing runs, the script completes
    | NotFound
    | Instantiate(cls: string, call: Invocation)
    | MissingClass(cls: string)           // `new` of an override class that does not exist throws
    | MissingMethod(cls: string, call: Invocation) // the override's method call throws

  /** The decisions after which the script runs to `post_system`. */
  predicate Completes(d: Decision)
  {
    d.RunClosure? || d.EchoOverride? || d.RunNothing? || d.Instantiate?
  }

  /**
   * The decision of `system/CodeIgniter.php` lines 207-329, with the 404
   * display reached by every `$e404` (see `DecideAsWritten`). The class and
   * method of a `[class, method]` override are not checked before use: a
   * missing class makes `new` throw (line 310), and a method that is
   * neither callable nor covered by `_remap` makes the call throw (line 325).
   */
  function Decide(answer: RouterAnswer, w: World): (d: Decision)
    ensures d.Redirect? <==> answer.RedirectRoute?
    ensures d.Redirect? ==> d.url == answer.url && d.code == answer.code
    ensures d.RunClosure? <==> answer.Handled? && answer.controller.Callable?
    ensures d.RunClosure? ==> d.effect == answer.controller.run(answer.params)
    ensures d.NotFound? <==>
      answer.Handled? && answer.controller.Name? &&
      (IsEmptyName(answer.controller.name) ||
       (!IsTruthy(w.override) && !IsDispatchable(w, answer.controller.name, answer.methodName)))
    ensures d.MissingClass? <==>
      answer.Handled? && answer.controller.Name? && !IsEmptyName(answer.controller.name) &&
      w.override.PairOverride? && w.override.cls !in w.classes
    ensures d.MissingMethod? <==>
      answer.Handled? && answer.controller.Name? && !IsEmptyName(answer.controller.name) &&
      w.override.PairOverride? && w.override.cls in w.classes &&
      !Runnable(w, w.override.cls, w.override.methodName)
    ensures d.MissingClass? ==> d.cls == w.override.cls
    ensures d.MissingMethod? ==> d.cls == w.override.cls && d.call == Direct(d.cls, w.override.methodName, answer.params)
    ensures d.Instantiate? ==>
      Runnable(w, d.cls, d.call.methodName) && d.call == CallFor(w, d.cls, d.call.methodName, answer.params)
    ensures d.Instantiate? && w.override.NoOverride? ==>
      d.cls == answer.controller.name && IsDispatchable(w, d.cls, answer.methodName)
    ensures d.Instantiate? && w.override.PairOverride? ==>
      d.cls == w.override.cls && d.call.methodName == w.override.methodName
    ensures d.Instantiate? ==> w.override.NoOverride? || w.override.PairOverride?
    ensures answer.Handled? && answer.controller.Name? && !IsEmptyName(answer.controller.name) ==>
      var name, m := answer.controller.name, answer.methodName;
      && (w.override.NoOverride? && IsDispatchable(w, name, m) ==>
            d == Instantiate(name, CallFor(w, name, m, answer.params)))
      && (w.override.PairOverride? && Runnable(w, w.override.cls, w.override.methodName) ==>
            d == Instantiate(w.override.cls, CallFor(w, w.override.cls, w.override.methodName, answer.params)))
      && (w.override.ClosureOverride? ==> d == EchoOverride(w.override.effect))
      && (w.override.OtherOverride? ==> d == RunNothing)
      && (w.override.FalsyOverride? && IsDispatchable(w, name, m) ==> d == RunNothing)
  {
    match answer
    case RedirectRoute(url, code) => Redirect(url, code)
    case Handled(controller, methodName, params) =>
      match controller
      case Callable(run) => RunClosure(run(params))
      case Name(name) =>
        if IsEmptyName(name) then NotFound
        else
          match w.override
          case NoOverride =>
            if IsDispatchable(w, name, methodName) then Instantiate(name, CallFor(w, name, methodName, params))
            else NotFound
          case FalsyOverride =>
            if IsDispatchable(w, name, methodName) then RunNothing else NotFound
          case ClosureOverride(effect) => EchoOverride(effect)
          case PairOverride(cls, m) =>
            if cls !in w.classes then MissingClass(cls)
            else if !Runnable(w, cls, m) then MissingMethod(cls, CallFor(w, cls, m, params))
            else Instantiate(cls, CallFor(w, cls, m, params))
          case OtherOverride => RunNothing
  }

  /**
   * The decision as `system/CodeIgniter.php` writes it: an empty controller
   * sets `$e404` (line 248), but the 404 display (lines 281-306) is inside
   * the `else` of line 250, so nothing reads the flag and the script goes on.
   */
  function DecideAsWritten(answer: RouterAnswer, w: World): (d: Decision)
    ensures d.NotFound? <==>
      answer.Handled? && answer.controller.Name? && !IsEmptyName(answer.controller.name) &&
      !IsTruthy(w.override) && !IsDispatchable(w, answer.controller.name, answer.methodName)
    ensures d != Decide(answer, w) <==>
      answer.Handled? && answer.controller.Name? && IsEmptyName(answer.controller.name)
  {
    if answer.Handled? && answer.controller.Name? && IsEmptyName(answer.controller.name) then RunNothing
    else Decide(answer, w)
  }

  /** One observable step of the script. */
  datatype Event =
    | Trigger(hook: Hook)
    | SetStatus(code: int)
    | RedirectTo(url: string, code: int)   // $response->redirect($url, 'auto', $code)
    | Construct(cls: string)               // new $controller($request, $response)
    | Invoke(call: Invocation)
    | Send                                 // $response->send()
    | Exit(code: int)
    | Throw(failure: Failure)              // an Error the script does not catch

  /** The Errors a `[class, method]` override can raise. */
  datatype Failure =
    | ClassNotFound(cls: string)
    | UndefinedMethod(cls: string, methodName: string)

  /** How the script ends. */
  datatype Outcome =
    | Redirecting(url: string, code: int)
    | NotFoundExit(exitCode: int)
    | Completed(body: string)
    | Aborted(failure: Failure)

  /**
   * Everything the script leaves behind: its outcome, its steps in order,
   * the Response object's status, redirect target and body, and the text
   * that reached the client.
   */
  datatype Observed = Observed(
    outcome: Outcome,
    trace: seq<Event>,
    status: int,
    location: Option<string>,
    body: string,
    client: string)

  /** The 404 view for the execution context. */
  function NotFoundView(w: World, cfg: Config): string
  {
    if cfg.isCli then w.cliView else w.htmlView
  }

  /** The text written and the status set during the controller stage of a completing run. */
  function ControllerEffect(d: Decision, w: World): Effect
  {
    match d
    case RunClosure(effect) => effect
    case EchoOverride(effect) => effect
    case Instantiate(_, call) => w.invoke(call)
    case _ => Effect("", None)
  }

  /** The status change an effect makes, as a step. */
  function StatusSteps(e: Effect): seq<Event>
  {
    if e.status.Some? then [SetStatus(e.status.value)] else []
  }

  /** The steps of the controller stage of a completing run. */
  function ControllerSteps(d: Decision, w: World): seq<Event>
  {
    match d
    case Instantiate(cls, call) =>
      [Construct(cls), Trigger(PostControllerConstructor), Invoke(call)] + StatusSteps(w.invoke(call))
    case RunClosure(effect) => StatusSteps(effect)
    case EchoOverride(effect) => StatusSteps(effect)
    case _ => []
  }

  /** What the script does for a decision, from `pre_system` to the end. */
  function Play(d: Decision, w: World, cfg: Config, elapsed: string, toolbar: string): Observed
  {
    var start := [Trigger(PreSystem), SetStatus(200)];
    match d
    case Redirect(url, code) =>
      Observed(Redirecting(url, code), start + [RedirectTo(url, code), Exit(0)], code, Some(url), "", "")
    case NotFound =>
      Observed(NotFoundExit(UnknownFileExit), start + [Trigger(PreController), SetStatus(404), Exit(UnknownFileExit)],
               404, None, "", NotFoundView(w, cfg))
    case MissingClass(cls) =>
      Observed(Aborted(ClassNotFound(cls)), start + [Trigger(PreController), Throw(ClassNotFound(cls))],
               200, None, "", "")
    case MissingMethod(cls, call) =>
      Observed(Aborted(UndefinedMethod(cls, call.methodName)),
               start + [Trigger(PreController), Construct(cls), Trigger(PostControllerConstructor),
                        Throw(UndefinedMethod(cls, call.methodName))],
               200, None, "", "")
    case _ =>
      var effect := ControllerEffect(d, w);
      var controllerSteps := ControllerSteps(d, w);
      var body := Finalize(effect.output, elapsed, cfg.production, cfg.toolbarEnabled, toolbar);
      Observed(Completed(body),
               start + [Trigger(PreController)] + controllerSteps + [Trigger(PostController), Send, Trigger(PostSystem)],
               if effect.status.Some? then effect.status.value else 200, None, body, body)
  }

  /** The status a completing run leaves: the controller's, or the initial 200. */
  function CompletedStatus(d: Decision, w: World): int
  {
    var effect := ControllerEffect(d, w);
    if effect.status.Some? then effect.status.value else 200
  }

  /** A run that neither redirects nor hits the 404 display, step by step. */
  lemma PlayCompletes(d: Decision, w: World, cfg: Config, elapsed: string, toolbar: string)
    requires Completes(d)
    ensures var body := Finalize(ControllerEffect(d, w).output, elapsed, cfg.production, cfg.toolbarEnabled, toolbar);
      Play(d, w, cfg, elapsed, toolbar) ==
      Observed(Completed(body),
               [Trigger(PreSystem), SetStatus(200), Trigger(PreController)] + ControllerSteps(d, w) +
               [Trigger(PostController), Send, Trigger(PostSystem)],
               CompletedStatus(d, w), None, body, body)
  {
  }

  /** The whole script for one request. */
  function Script(answer: RouterAnswer, w: World, cfg: Config, elapsed: string, toolbar: string): Observed
  {
    Play(Decide(answer, w), w, cfg, elapsed, toolbar)
  }

  /** A redirect route, step by step. */
  lemma ScriptRedirects(answer: RouterAnswer, w: World, cfg: Config, elapsed: string, toolbar: string)
    requires answer.RedirectRoute?
    ensures Script(answer, w, cfg, elapsed, toolbar) ==
      Observed(Redirecting(answer.url, answer.code),
               [Trigger(PreSystem), SetStatus(200), RedirectTo(answer.url, answer.code), Exit(0)],
               answer.code, Some(answer.url), "", "")
  {
  }

  /** The 404 path, step by step. */
  lemma ScriptNotFound(answer: RouterAnswer, w: World, cfg: Config, elapsed: string, toolbar: string)
    requires Decide(answer, w).NotFound?
    ensures Script(answer, w, cfg, elapsed, toolbar) ==
      Observed(NotFoundExit(UnknownFileExit),
               [Trigger(PreSystem), SetStatus(200), Trigger(PreController), SetStatus(404), Exit(UnknownFileExit)],
               404, None, "", NotFoundView(w, cfg))
  {
  }

  /** The decisions on which the script stops inside the controller stage. */
  predicate Halts(d: Decision)
  {
    d.NotFound? || d.MissingClass? || d.MissingMethod?
  }

  /** How a run that stops inside the controller stage ends. */
  function StopOutcome(d: Decision): Outcome
    requires Halts(d)
  {
    match d
    case NotFound => NotFoundExit(UnknownFileExit)
    case MissingClass(cls) => Aborted(ClassNotFound(cls))
    case MissingMethod(cls, call) => Aborted(UndefinedMethod(cls, call.methodName))
  }

  /** The steps a run that stops inside the controller stage takes after `pre_controller`. */
  function StopSteps(d: Decision): seq<Event>
    requires Halts(d)
  {
    match d
    case NotFound => [SetStatus(404), Exit(UnknownFileExit)]
    case MissingClass(cls) => [Throw(ClassNotFound(cls))]
    case MissingMethod(cls, call) =>
      [Construct(cls), Trigger(PostControllerConstructor), Throw(UndefinedMethod(cls, call.methodName))]
  }

  /**
   * A run that stops inside the controller stage: the 404 path sets 404
   * and shows the 404 view; an Error from a `[class, method]` override
   * leaves the status at 200 and sends nothing.
   */
  lemma ScriptHalts(answer: RouterAnswer, w: World, cfg: Config, elapsed: string, toolbar: string)
    requires Halts(Decide(answer, w))
    ensures var d := Decide(answer, w);
      Script(answer, w, cfg, elapsed, toolbar) ==
      Observed(StopOutcome(d),
               [Trigger(PreSystem), SetStatus(200), Trigger(PreController)] + StopSteps(d),
               if d.NotFound? then 404 else 200, None, "",
               if d.NotFound? then NotFoundView(w, cfg) else "")
  {
  }

  /** The hooks a trace triggers, in order. */
  function HooksOf(trace: seq<Event>): seq<Hook>
  {
    if trace == [] then []
    else (if trace[0].Trigger? then [trace[0].hook] else []) + HooksOf(trace[1..])
  }

  /** The classes a trace constructs, in order. */
  function ConstructedIn(trace: seq<Event>): seq<string>
  {
    if trace == [] then []
    else (if trace[0].Construct? then [trace[0].cls] else []) + ConstructedIn(trace[1..])
  }

  lemma {:induction false} HooksOfAppend(a: seq<Event>, b: seq<Event>)
    ensures HooksOf(a + b) == HooksOf(a) + HooksOf(b)
    decreases |a|
  {
    if a != [] {
      HooksOfAppend(a[1..], b);
      assert (a + b)[1..] == a[1..] + b;
    } else {
      assert a + b == b;
    }
  }

  lemma {:induction false} ConstructedInAppend(a: seq<Event>, b: seq<Event>)
    ensures ConstructedIn(a + b) == ConstructedIn(a) + ConstructedIn(b)
    decreases |a|
  {
    if a != [] {
      ConstructedInAppend(a[1..], b);
      assert (a + b)[1..] == a[1..] + b;
    } else {
      assert a + b == b;
    }
  }
}
