/**
 * The front-controller script `system/CodeIgniter.php` from the
 * `pre_system` hook to the `post_system` hook, step by step: the Response
 * object (status, redirect target, body), the output buffer, the text that
 * reaches the client and the trace of observable steps are fields that the
 * script updates in place. The router's answer, the reflection checks, the
 * configured 404 override and what controllers and views write come in as
 * values (`Dispatch.World`).
 */
module FrontController {
  import opened Output
  import opened Dispatch

  class Lifecycle {
    /** The observable steps taken so far, in order. */
    var trace: seq<Event>
    /** The Response object's status code. */
    var status: int
    /** The Response object's redirect target. */
    var location: Option<string>
    /** The Response object's body. */
    var body: string
    /** The open output buffer (`ob_start` .. `ob_get_contents`). */
    var buffer: string
    /** The text that has reached the client. */
    var client: string

    /** Nothing has happened yet for this request. */
    predicate Pristine()
      reads this
    {
      trace == [] && location == None && body == "" && buffer == "" && client == ""
    }

    /** What the run has left behind, with its outcome. */
    function Observe(o: Outcome): Observed
      reads this
    {
      Observed(o, trace, status, location, body, client)
    }

    constructor ()
      ensures Pristine()
    {
      trace, status, location := [], 200, None;
      body, buffer, client := "", "", "";
    }

    /**
     * Handles one request: lines 157-368, from the `pre_system` hook on.
     */
    method Run(answer: RouterAnswer, w: World, cfg: Config, elapsed: string, toolbar: string)
      returns (o: Outcome)
      requires Pristine()
      modifies this
      ensures Observe(o) == Script(answer, w, cfg, elapsed, toolbar)
    {
      trace := trace + [Trigger(PreSystem)];
      // Assume success until proven otherwise.
      status := 200;
      trace := trace + [SetStatus(200)];
      assert trace == [Trigger(PreSystem), SetStatus(200)];

      if answer.RedirectRoute? {
        status, location := answer.code, Some(answer.url);
        trace := trace + [RedirectTo(answer.url, answer.code), Exit(0)];
        assert trace == [Trigger(PreSystem), SetStatus(200), RedirectTo(answer.url, answer.code), Exit(0)];
        ScriptRedirects(answer, w, cfg, elapsed, toolbar);
        return Redirecting(answer.url, answer.code);
      }

      ghost var d := Decide(answer, w);
      trace := trace + [Trigger(PreController)];
      ghost var before := trace;
      assert before == [Trigger(PreSystem), SetStatus(200), Trigger(PreController)];
      buffer := "";
      var stop := RunController(answer, w, cfg);
      if stop.Some? {
        assert trace == before + StopSteps(d);
        ScriptHalts(answer, w, cfg, elapsed, toolbar);
        return stop.value;
      }
      assert buffer == ControllerEffect(d, w).output;
      assert trace == before + ControllerSteps(d, w);
      assert status == CompletedStatus(d, w);
      SendOutput(cfg, elapsed, toolbar);
      o := Completed(body);
      PlayCompletes(d, w, cfg, elapsed, toolbar);
    }

    /**
     * Lines 237-329: resolves the routed controller, applies the 404
     * override, and either stops the script (`stop`: the 404 view shown
     * and exit 4, or an Error thrown by a `[class, method]` override) or
     * runs the closure or the controller into the open buffer. The
     * not-found display is reached by every `$e404`, including the one an
     * empty controller sets (`Dispatch.DecideAsWritten` has the source's
     * placement).
     */
    method RunController(answer: RouterAnswer, w: World, cfg: Config) returns (stop: Option<Outcome>)
      requires answer.Handled?
      modifies this
      ensures var d := Decide(answer, w);
        && (stop.Some? <==> Halts(d))
        && location == old(location) && body == old(body)
        && (Halts(d) ==>
              && stop == Some(StopOutcome(d))
              && trace == old(trace) + StopSteps(d)
              && status == (if d.NotFound? then 404 else old(status))
              && buffer == (if d.NotFound? then "" else old(buffer))
              && client == old(client) + (if d.NotFound? then old(buffer) + NotFoundView(w, cfg) else ""))
        && (!Halts(d) ==>
              && status == (if ControllerEffect(d, w).status.Some? then ControllerEffect(d, w).status.value else old(status))
              && buffer == old(buffer) + ControllerEffect(d, w).output
              && trace == old(trace) + ControllerSteps(d, w)
              && client == old(client))
    {
      ghost var d := Decide(answer, w);
      var controller := answer.controller;
      var methodName := answer.methodName;
      var e404 := false;
      var overrideIsset := false;

      if controller.Callable? {
        var effect := controller.run(answer.params);
        assert d == RunClosure(effect);
        Echo(effect);
        return None;
      }

      if IsEmptyName(controller.name) {
        e404 := true;
      } else {
        if controller.name !in w.classes || IsPrivateMethod(methodName) {
          e404 := true;
        } else if controller.name !in w.remaps && (controller.name, methodName) !in w.callables {
          e404 := true;
        }
        overrideIsset := !w.override.NoOverride?;
        if IsTruthy(w.override) {
          if w.override.ClosureOverride? {
            Echo(w.override.effect);
          } else if w.override.PairOverride? {
            controller := Name(w.override.cls);
            methodName := w.override.methodName;
            overrideIsset := false;
          }
          e404 := false;
        }
      }

      if e404 {
        assert d == NotFound;
        status := 404;
        trace := trace + [SetStatus(404)];
        // ob_end_flush(), then the 404 view rendered into a fresh buffer
        client := client + buffer;
        buffer := NotFoundView(w, cfg);
        var captured := buffer;
        buffer := "";
        client := client + captured;
        trace := trace + [Exit(UnknownFileExit)];
        return Some(NotFoundExit(UnknownFileExit));
      }

      if !overrideIsset {
        assert d == (if controller.name !in w.classes then MissingClass(controller.name)
                     else if !Runnable(w, controller.name, methodName)
                     then MissingMethod(controller.name, CallFor(w, controller.name, methodName, answer.params))
                     else Instantiate(controller.name, CallFor(w, controller.name, methodName, answer.params)));
        stop := ConstructAndCall(w, controller.name, methodName, answer.params);
      } else {
        assert d.EchoOverride? || d.RunNothing?;
        stop := None;
      }
    }

    /**
     * Lines 308-327: `new` on the class (which throws when the class does
     * not exist), the `post_controller_constructor` hook, then `_remap`
     * with the method name when the class has one and the method itself
     * otherwise (which throws when it cannot be called).
     */
    method ConstructAndCall(w: World, cls: string, methodName: string, params: seq<string>)
      returns (stop: Option<Outcome>)
      modifies this
      ensures location == old(location) && body == old(body) && client == old(client)
      ensures cls !in w.classes ==>
        && stop == Some(Aborted(ClassNotFound(cls)))
        && trace == old(trace) + [Throw(ClassNotFound(cls))]
        && status == old(status) && buffer == old(buffer)
      ensures cls in w.classes && !Runnable(w, cls, methodName) ==>
        && stop == Some(Aborted(UndefinedMethod(cls, methodName)))
        && trace == old(trace) + [Construct(cls), Trigger(PostControllerConstructor), Throw(UndefinedMethod(cls, methodName))]
        && status == old(status) && buffer == old(buffer)
      ensures Runnable(w, cls, methodName) ==>
        var call := CallFor(w, cls, methodName, params);
        var effect := w.invoke(call);
        && stop == None
        && trace == old(trace) + [Construct(cls), Trigger(PostControllerConstructor), Invoke(call)] + StatusSteps(effect)
        && buffer == old(buffer) + effect.output
        && status == (if effect.status.Some? then effect.status.value else old(status))
    {
      if cls !in w.classes {
        trace := trace + [Throw(ClassNotFound(cls))];
        return Some(Aborted(ClassNotFound(cls)));
      }
      trace := trace + [Construct(cls), Trigger(PostControllerConstructor)];
      if cls !in w.remaps && (cls, methodName) !in w.callables {
        trace := trace + [Throw(UndefinedMethod(cls, methodName))];
        return Some(Aborted(UndefinedMethod(cls, methodName)));
      }
      var call := if cls in w.remaps then Remap(cls, methodName, params) else Direct(cls, methodName, params);
      trace := trace + [Invoke(call)];
      ghost var invoked := trace;
      Echo(w.invoke(call));
      assert trace == invoked + StatusSteps(w.invoke(call));
      return None;
    }

    /** `echo` of what a closure or controller writes, and the status it sets, into the open buffer. */
    method Echo(effect: Effect)
      modifies this
      ensures buffer == old(buffer) + effect.output
      ensures trace == old(trace) + StatusSteps(effect)
      ensures status == (if effect.status.Some? then effect.status.value else old(status))
      ensures location == old(location) && body == old(body) && client == old(client)
    {
      buffer := buffer + effect.output;
      if effect.status.Some? {
        status := effect.status.value;
        trace := trace + [SetStatus(effect.status.value)];
      }
    }

    /**
     * Lines 331-368: the `post_controller` hook, the captured output with
     * `{elapsed_time}` substituted and the toolbar appended becomes the
     * body, the response is sent, then the `post_system` hook.
     */
    method SendOutput(cfg: Config, elapsed: string, toolbar: string)
      modifies this
      ensures body == Finalize(old(buffer), elapsed, cfg.production, cfg.toolbarEnabled, toolbar)
      ensures buffer == "" && client == old(client) + body
      ensures status == old(status) && location == old(location)
      ensures trace == old(trace) + [Trigger(PostController), Send, Trigger(PostSystem)]
    {
      trace := trace + [Trigger(PostController)];
      var output := buffer;
      buffer := "";
      output := ReplaceAll(output, ElapsedTag, elapsed);
      if !cfg.production && cfg.toolbarEnabled {
        output := output + toolbar;
      }
      body := output;
      client := client + body;
      trace := trace + [Send];
      trace := trace + [Trigger(PostSystem)];
    }
  }
}
