/**
 * What the front-controller script promises, stated over `Dispatch.Script`
 * for every router answer, every outcome of the reflection checks and
 * every configured 404 override.
 */
module DispatchProperties {
  import opened Output
  import opened Dispatch

  /** The hook and class one step contributes. */
  lemma SingleStep(e: Event)
    ensures HooksOf([e]) == (if e.Trigger? then [e.hook] else [])
    ensures ConstructedIn([e]) == (if e.Construct? then [e.cls] else [])
  {
    assert [e][1..] == [];
  }

  /** Two steps contribute what each does, in order. */
  lemma TwoSteps(a: Event, b: Event)
    ensures HooksOf([a, b]) == HooksOf([a]) + HooksOf([b])
    ensures ConstructedIn([a, b]) == ConstructedIn([a]) + ConstructedIn([b])
  {
    assert [a, b] == [a] + [b];
    HooksOfAppend([a], [b]);
    ConstructedInAppend([a], [b]);
  }

  /** Three steps contribute what each does, in order. */
  lemma ThreeSteps(a: Event, b: Event, c: Event)
    ensures HooksOf([a, b, c]) == HooksOf([a]) + HooksOf([b]) + HooksOf([c])
    ensures ConstructedIn([a, b, c]) == ConstructedIn([a]) + ConstructedIn([b]) + ConstructedIn([c])
  {
    assert [a, b, c][1..] == [b, c];
    assert [b, c][1..] == [c];
    SingleStep(a);
    SingleStep(b);
    SingleStep(c);
  }

  /** `pre_system`, then the status set to 200. */
  lemma StartSegment()
    ensures HooksOf([Trigger(PreSystem), SetStatus(200)]) == [PreSystem]
    ensures ConstructedIn([Trigger(PreSystem), SetStatus(200)]) == []
  {
    TwoSteps(Trigger(PreSystem), SetStatus(200));
    SingleStep(Trigger(PreSystem));
    SingleStep(SetStatus(200));
  }

  /** The redirect and the exit. */
  lemma RedirectSegment(url: string, code: int)
    ensures HooksOf([RedirectTo(url, code), Exit(0)]) == []
    ensures ConstructedIn([RedirectTo(url, code), Exit(0)]) == []
  {
    TwoSteps(RedirectTo(url, code), Exit(0));
    SingleStep(RedirectTo(url, code));
    SingleStep(Exit(0));
  }

  /** `post_controller`, the response sent, then `post_system`. */
  lemma EndSegment()
    ensures HooksOf([Trigger(PostController), Send, Trigger(PostSystem)]) == [PostController, PostSystem]
    ensures ConstructedIn([Trigger(PostController), Send, Trigger(PostSystem)]) == []
  {
    ThreeSteps(Trigger(PostController), Send, Trigger(PostSystem));
    SingleStep(Trigger(PostController));
    SingleStep(Send);
    SingleStep(Trigger(PostSystem));
  }

  /** A status change is no hook and constructs nothing. */
  lemma StatusStepsSilent(e: Effect)
    ensures HooksOf(StatusSteps(e)) == [] && ConstructedIn(StatusSteps(e)) == []
  {
    if e.status.Some? {
      SingleStep(SetStatus(e.status.value));
    }
  }

  /** Constructing a class, `post_controller_constructor`, the call, then any status change. */
  lemma InstantiateStage(cls: string, call: Invocation, tail: seq<Event>)
    requires HooksOf(tail) == [] && ConstructedIn(tail) == []
    ensures HooksOf([Construct(cls), Trigger(PostControllerConstructor), Invoke(call)] + tail) == [PostControllerConstructor]
    ensures ConstructedIn([Construct(cls), Trigger(PostControllerConstructor), Invoke(call)] + tail) == [cls]
  {
    ThreeSteps(Construct(cls), Trigger(PostControllerConstructor), Invoke(call));
    SingleStep(Construct(cls));
    SingleStep(Trigger(PostControllerConstructor));
    SingleStep(Invoke(call));
    HooksOfAppend([Construct(cls), Trigger(PostControllerConstructor), Invoke(call)], tail);
    ConstructedInAppend([Construct(cls), Trigger(PostControllerConstructor), Invoke(call)], tail);
  }

  /** The controller stage of a completing run triggers one hook and constructs one class exactly when it instantiates. */
  lemma ControllerStage(d: Decision, w: World)
    ensures HooksOf(ControllerSteps(d, w)) == (if d.Instantiate? then [PostControllerConstructor] else [])
    ensures ConstructedIn(ControllerSteps(d, w)) == (if d.Instantiate? then [d.cls] else [])
  {
    match d {
      case Instantiate(cls, call) =>
        StatusStepsSilent(w.invoke(call));
        InstantiateStage(cls, call, StatusSteps(w.invoke(call)));
      case RunClosure(e) =>
        StatusStepsSilent(e);
      case EchoOverride(e) =>
        StatusStepsSilent(e);
      case _ =>
    }
  }

  /** The steps of a stop inside the controller stage: `post_controller_constructor` and one class only when an override's call throws. */
  lemma StopStage(d: Decision)
    requires Halts(d)
    ensures HooksOf(StopSteps(d)) == (if d.MissingMethod? then [PostControllerConstructor] else [])
    ensures ConstructedIn(StopSteps(d)) == (if d.MissingMethod? then [d.cls] else [])
  {
    match d {
      case NotFound =>
        TwoSteps(SetStatus(404), Exit(UnknownFileExit));
        SingleStep(SetStatus(404));
        SingleStep(Exit(UnknownFileExit));
      case MissingClass(cls) =>
        SingleStep(Throw(ClassNotFound(cls)));
      case MissingMethod(cls, call) =>
        var f := Throw(UndefinedMethod(cls, call.methodName));
        ThreeSteps(Construct(cls), Trigger(PostControllerConstructor), f);
        SingleStep(Construct(cls));
        SingleStep(Trigger(PostControllerConstructor));
        SingleStep(f);
    }
  }

  /** A redirect's trace triggers `pre_system` only and constructs nothing. */
  lemma RedirectTraceShape(url: string, code: int)
    ensures HooksOf([Trigger(PreSystem), SetStatus(200)] + [RedirectTo(url, code), Exit(0)]) == [PreSystem]
    ensures ConstructedIn([Trigger(PreSystem), SetStatus(200)] + [RedirectTo(url, code), Exit(0)]) == []
  {
    StartSegment();
    RedirectSegment(url, code);
    HooksOfAppend([Trigger(PreSystem), SetStatus(200)], [RedirectTo(url, code), Exit(0)]);
    ConstructedInAppend([Trigger(PreSystem), SetStatus(200)], [RedirectTo(url, code), Exit(0)]);
  }

  /** The steps up to `pre_controller` trigger `pre_system` and `pre_controller` and construct nothing. */
  lemma OpeningSteps()
    ensures HooksOf([Trigger(PreSystem), SetStatus(200), Trigger(PreController)]) == [PreSystem, PreController]
    ensures ConstructedIn([Trigger(PreSystem), SetStatus(200), Trigger(PreController)]) == []
  {
    ThreeSteps(Trigger(PreSystem), SetStatus(200), Trigger(PreController));
    SingleStep(Trigger(PreSystem));
    SingleStep(SetStatus(200));
    SingleStep(Trigger(PreController));
  }

  /** The hooks of three consecutive parts of a trace. */
  lemma HooksOfThree(a: seq<Event>, b: seq<Event>, c: seq<Event>)
    ensures HooksOf(a + b + c) == HooksOf(a) + HooksOf(b) + HooksOf(c)
  {
    HooksOfAppend(a + b, c);
    HooksOfAppend(a, b);
  }

  /** The classes of three consecutive parts of a trace. */
  lemma ConstructedInThree(a: seq<Event>, b: seq<Event>, c: seq<Event>)
    ensures ConstructedIn(a + b + c) == ConstructedIn(a) + ConstructedIn(b) + ConstructedIn(c)
  {
    ConstructedInAppend(a + b, c);
    ConstructedInAppend(a, b);
  }

  /** A trace that stops after `pre_controller` adds the stop's hooks and classes to `pre_system` and `pre_controller`. */
  lemma HaltedTraceShape(steps: seq<Event>)
    ensures var trace := [Trigger(PreSystem), SetStatus(200), Trigger(PreController)] + steps;
      && HooksOf(trace) == [PreSystem, PreController] + HooksOf(steps)
      && ConstructedIn(trace) == ConstructedIn(steps)
  {
    OpeningSteps();
    HooksOfAppend([Trigger(PreSystem), SetStatus(200), Trigger(PreController)], steps);
    ConstructedInAppend([Trigger(PreSystem), SetStatus(200), Trigger(PreController)], steps);
  }

  /** The hooks of a completing trace: the controller stage's, between the fixed ones. */
  lemma CompletedHooks(steps: seq<Event>)
    ensures HooksOf([Trigger(PreSystem), SetStatus(200), Trigger(PreController)] + steps +
                    [Trigger(PostController), Send, Trigger(PostSystem)])
            == [PreSystem, PreController] + HooksOf(steps) + [PostController, PostSystem]
  {
    OpeningSteps();
    EndSegment();
    HooksOfThree([Trigger(PreSystem), SetStatus(200), Trigger(PreController)], steps,
                 [Trigger(PostController), Send, Trigger(PostSystem)]);
  }

  /** The classes of a completing trace: the controller stage's. */
  lemma CompletedClasses(steps: seq<Event>)
    ensures ConstructedIn([Trigger(PreSystem), SetStatus(200), Trigger(PreController)] + steps +
                          [Trigger(PostController), Send, Trigger(PostSystem)])
            == ConstructedIn(steps)
  {
    OpeningSteps();
    EndSegment();
    ConstructedInThree([Trigger(PreSystem), SetStatus(200), Trigger(PreController)], steps,
                       [Trigger(PostController), Send, Trigger(PostSystem)]);
  }

  /** The hooks a run triggers for a decision, in order. */
  function HooksFor(d: Decision): seq<Hook>
  {
    if d.Redirect? then [PreSystem]
    else if d.NotFound? || d.MissingClass? then [PreSystem, PreController]
    else if d.MissingMethod? then [PreSystem, PreController, PostControllerConstructor]
    else if d.Instantiate? then [PreSystem, PreController, PostControllerConstructor, PostController, PostSystem]
    else [PreSystem, PreController, PostController, PostSystem]
  }

  /** The classes a run constructs for a decision: one, when it instantiates or an override's call throws. */
  function ConstructedFor(d: Decision): seq<string>
  {
    if d.Instantiate? || d.MissingMethod? then [d.cls] else []
  }

  /** A redirect triggers `pre_system` only and constructs nothing. */
  lemma RedirectPlayTrace(d: Decision, w: World, cfg: Config, elapsed: string, toolbar: string)
    requires d.Redirect?
    ensures HooksOf(Play(d, w, cfg, elapsed, toolbar).trace) == HooksFor(d)
    ensures ConstructedIn(Play(d, w, cfg, elapsed, toolbar).trace) == ConstructedFor(d)
  {
    assert Play(d, w, cfg, elapsed, toolbar).trace ==
           [Trigger(PreSystem), SetStatus(200)] + [RedirectTo(d.url, d.code), Exit(0)];
    RedirectTraceShape(d.url, d.code);
  }

  /** A run that stops inside the controller stage takes its stop's steps after `pre_controller`. */
  lemma HaltedPlay(d: Decision, w: World, cfg: Config, elapsed: string, toolbar: string)
    requires Halts(d)
    ensures Play(d, w, cfg, elapsed, toolbar).trace ==
            [Trigger(PreSystem), SetStatus(200), Trigger(PreController)] + StopSteps(d)
  {
    var start := [Trigger(PreSystem), SetStatus(200), Trigger(PreController)];
    match d {
      case NotFound =>
        assert start + StopSteps(d) ==
               [Trigger(PreSystem), SetStatus(200)] + [Trigger(PreController), SetStatus(404), Exit(UnknownFileExit)];
      case MissingClass(cls) =>
        assert start + StopSteps(d) ==
               [Trigger(PreSystem), SetStatus(200)] + [Trigger(PreController), Throw(ClassNotFound(cls))];
      case MissingMethod(cls, call) =>
        assert start + StopSteps(d) ==
               [Trigger(PreSystem), SetStatus(200)] +
               [Trigger(PreController), Construct(cls), Trigger(PostControllerConstructor),
                Throw(UndefinedMethod(cls, call.methodName))];
    }
  }

  /**
   * A run that stops inside the controller stage triggers `pre_system` and
   * `pre_controller`, then `post_controller_constructor` only when an
   * override's call throws, and constructs that override's class only.
   */
  lemma HaltedPlayTrace(d: Decision, w: World, cfg: Config, elapsed: string, toolbar: string)
    requires Halts(d)
    ensures HooksOf(Play(d, w, cfg, elapsed, toolbar).trace) == HooksFor(d)
    ensures ConstructedIn(Play(d, w, cfg, elapsed, toolbar).trace) == ConstructedFor(d)
  {
    HaltedPlay(d, w, cfg, elapsed, toolbar);
    HaltedTraceShape(StopSteps(d));
    StopStage(d);
  }

  /** A completing run's hooks: the controller stage's, between the fixed ones. */
  lemma CompletedPlayHooks(d: Decision, w: World, cfg: Config, elapsed: string, toolbar: string)
    requires Completes(d)
    ensures HooksOf(Play(d, w, cfg, elapsed, toolbar).trace) == HooksFor(d)
  {
    PlayCompletes(d, w, cfg, elapsed, toolbar);
    CompletedHooks(ControllerSteps(d, w));
    ControllerStage(d, w);
  }

  /** A completing run constructs the controller stage's classes only. */
  lemma CompletedPlayClasses(d: Decision, w: World, cfg: Config, elapsed: string, toolbar: string)
    requires Completes(d)
    ensures ConstructedIn(Play(d, w, cfg, elapsed, toolbar).trace) == ConstructedFor(d)
  {
    PlayCompletes(d, w, cfg, elapsed, toolbar);
    CompletedClasses(ControllerSteps(d, w));
    ControllerStage(d, w);
  }

  /**
   * The hooks a run triggers and the classes it constructs, by decision:
   * a redirect triggers `pre_system` only; a stop in the controller stage
   * adds `pre_controller`, and `post_controller_constructor` when an
   * override's call throws; a completing run adds `post_controller` and
   * `post_system`, with `post_controller_constructor` between them only
   * when a class is constructed. At most that one class is constructed.
   */
  lemma PlayTrace(d: Decision, w: World, cfg: Config, elapsed: string, toolbar: string)
    ensures var ob := Play(d, w, cfg, elapsed, toolbar);
      && HooksOf(ob.trace) == HooksFor(d)
      && ConstructedIn(ob.trace) == ConstructedFor(d)
  {
    if d.Redirect? {
      RedirectPlayTrace(d, w, cfg, elapsed, toolbar);
    } else if Halts(d) {
      HaltedPlayTrace(d, w, cfg, elapsed, toolbar);
    } else {
      CompletedPlayHooks(d, w, cfg, elapsed, toolbar);
      CompletedPlayClasses(d, w, cfg, elapsed, toolbar);
    }
  }

  /** `PlayTrace` for the script's own decision. */
  lemma TraceSummary(answer: RouterAnswer, w: World, cfg: Config, elapsed: string, toolbar: string)
    ensures var ob := Script(answer, w, cfg, elapsed, toolbar);
      var d := Decide(answer, w);
      && HooksOf(ob.trace) == HooksFor(d)
      && ConstructedIn(ob.trace) == ConstructedFor(d)
  {
    PlayTrace(Decide(answer, w), w, cfg, elapsed, toolbar);
  }

  /** The status is 200 before the router is asked anything. */
  lemma StatusIsSuccessBeforeRouting(answer: RouterAnswer, w: World, cfg: Config, elapsed: string, toolbar: string)
    ensures var ob := Script(answer, w, cfg, elapsed, toolbar);
      |ob.trace| >= 3 && ob.trace[..2] == [Trigger(PreSystem), SetStatus(200)]
  {
    var d := Decide(answer, w);
    if Completes(d) {
      PlayCompletes(d, w, cfg, elapsed, toolbar);
    } else if Halts(d) {
      HaltedPlay(d, w, cfg, elapsed, toolbar);
    }
  }

  /**
   * A redirect route builds the redirect from the exception's URL and code
   * and exits: no further hook, no construction, no body, nothing written.
   */
  lemma RedirectShortCircuits(answer: RouterAnswer, w: World, cfg: Config, elapsed: string, toolbar: string)
    requires answer.RedirectRoute?
    ensures var ob := Script(answer, w, cfg, elapsed, toolbar);
      && ob.outcome == Redirecting(answer.url, answer.code)
      && ob.status == answer.code && ob.location == Some(answer.url)
      && ob.body == "" && ob.client == ""
      && HooksOf(ob.trace) == [PreSystem]
      && ConstructedIn(ob.trace) == []
      && ob.trace[|ob.trace| - 1] == Exit(0)
  {
    TraceSummary(answer, w, cfg, elapsed, toolbar);
  }

  /** An empty controller always ends on the 404 path, whatever override is configured. */
  lemma EmptyControllerNotFound(answer: RouterAnswer, w: World, cfg: Config, elapsed: string, toolbar: string)
    requires answer.Handled? && answer.controller.Name? && IsEmptyName(answer.controller.name)
    ensures var ob := Script(answer, w, cfg, elapsed, toolbar);
      ob.outcome == NotFoundExit(UnknownFileExit) && ob.status == 404
  {
  }

  /**
   * Without a truthy override, a class target ends on the 404 path exactly
   * when its class does not exist, its method starts with `_`, or it has
   * neither `_remap` nor a callable method.
   */
  lemma ClassTargetNotFound(answer: RouterAnswer, w: World, cfg: Config, elapsed: string, toolbar: string)
    requires answer.Handled? && answer.controller.Name? && !IsEmptyName(answer.controller.name)
    requires !IsTruthy(w.override)
    ensures var ob := Script(answer, w, cfg, elapsed, toolbar);
      var cls, m := answer.controller.name, answer.methodName;
      ob.outcome.NotFoundExit? <==>
        (cls !in w.classes || IsPrivateMethod(m) || (cls !in w.remaps && (cls, m) !in w.callables))
  {
  }

  /**
   * With no override, a routed class that passes both checks runs: it is
   * the one class constructed, right after `pre_controller`, followed by
   * `post_controller_constructor` and the call of `_remap` or the method
   * with the router's parameters, and the script completes with that
   * call's output as the body.
   */
  lemma ValidTargetRuns(answer: RouterAnswer, w: World, cfg: Config, elapsed: string, toolbar: string)
    requires answer.Handled? && answer.controller.Name? && !IsEmptyName(answer.controller.name)
    requires w.override.NoOverride? && IsDispatchable(w, answer.controller.name, answer.methodName)
    ensures var ob := Script(answer, w, cfg, elapsed, toolbar);
      var name, m := answer.controller.name, answer.methodName;
      var call := CallFor(w, name, m, answer.params);
      && ob.outcome.Completed?
      && ConstructedIn(ob.trace) == [name]
      && ob.trace[3..6] == [Construct(name), Trigger(PostControllerConstructor), Invoke(call)]
      && ob.body == Finalize(w.invoke(call).output, elapsed, cfg.production, cfg.toolbarEnabled, toolbar)
  {
    PlayCompletes(Decide(answer, w), w, cfg, elapsed, toolbar);
    TraceSummary(answer, w, cfg, elapsed, toolbar);
  }

  /**
   * A falsy override other than null is not consulted (line 263), so a
   * failed target still takes the 404 path; but it is set, so line 308
   * constructs nothing for a valid target, and the script completes with
   * status 200, an empty captured output and no constructor hook.
   */
  lemma FalsyOverrideRunsNothing(answer: RouterAnswer, w: World, cfg: Config, elapsed: string, toolbar: string)
    requires answer.Handled? && answer.controller.Name? && !IsEmptyName(answer.controller.name)
    requires w.override.FalsyOverride?
    ensures var ob := Script(answer, w, cfg, elapsed, toolbar);
      var name, m := answer.controller.name, answer.methodName;
      && (ob.outcome.NotFoundExit? <==> !IsDispatchable(w, name, m))
      && (IsDispatchable(w, name, m) ==>
            && ob.outcome.Completed?
            && ConstructedIn(ob.trace) == []
            && HooksOf(ob.trace) == [PreSystem, PreController, PostController, PostSystem]
            && ob.status == 200
            && ob.body == Finalize("", elapsed, cfg.production, cfg.toolbarEnabled, toolbar))
  {
    if IsDispatchable(w, answer.controller.name, answer.methodName) {
      PlayCompletes(Decide(answer, w), w, cfg, elapsed, toolbar);
    }
    TraceSummary(answer, w, cfg, elapsed, toolbar);
  }

  /**
   * With a truthy override configured, a class target never reaches the 404
   * path. The script completes unless a `[class, method]` override names a
   * class that does not exist or a method that cannot be called, and the
   * status is 404 only if the override itself sets it.
   */
  lemma OverrideClearsNotFound(answer: RouterAnswer, w: World, cfg: Config, elapsed: string, toolbar: string)
    requires answer.Handled? && answer.controller.Name? && !IsEmptyName(answer.controller.name)
    requires IsTruthy(w.override)
    ensures var ob := Script(answer, w, cfg, elapsed, toolbar);
      && !ob.outcome.NotFoundExit?
      && (ob.outcome.Completed? <==>
            !(w.override.PairOverride? && !Runnable(w, w.override.cls, w.override.methodName)))
      && (ob.status == 404 ==>
            (w.override.PairOverride? &&
             w.invoke(CallFor(w, w.override.cls, w.override.methodName, answer.params)).status == Some(404)) ||
            (w.override.ClosureOverride? && w.override.effect.status == Some(404)))
      && (w.override.OtherOverride? ==> ob.status == 200)
  {
    var d := Decide(answer, w);
    if Completes(d) {
      PlayCompletes(d, w, cfg, elapsed, toolbar);
    }
  }

  /**
   * A `[class, method]` override is used unchecked: a class that does not
   * exist makes `new` throw right after `pre_controller`, and a method that
   * is neither callable nor covered by `_remap` makes the call throw after
   * construction and `post_controller_constructor`. Either way nothing is
   * sent and `post_controller` never runs.
   */
  lemma OverrideTargetThrows(answer: RouterAnswer, w: World, cfg: Config, elapsed: string, toolbar: string)
    requires answer.Handled? && answer.controller.Name? && !IsEmptyName(answer.controller.name)
    requires w.override.PairOverride?
    ensures var ob := Script(answer, w, cfg, elapsed, toolbar);
      var cls, m := w.override.cls, w.override.methodName;
      && (cls !in w.classes ==>
            && ob.outcome == Aborted(ClassNotFound(cls))
            && HooksOf(ob.trace) == [PreSystem, PreController]
            && ConstructedIn(ob.trace) == [])
      && (cls in w.classes && !Runnable(w, cls, m) ==>
            && ob.outcome == Aborted(UndefinedMethod(cls, m))
            && HooksOf(ob.trace) == [PreSystem, PreController, PostControllerConstructor]
            && ConstructedIn(ob.trace) == [cls])
      && (!Runnable(w, cls, m) ==> ob.status == 200 && ob.body == "" && ob.client == "")
  {
    TraceSummary(answer, w, cfg, elapsed, toolbar);
  }

  /**
   * A configured [class, method] override replaces the routed target even
   * when that target is valid: an existing override class is the only one
   * constructed, and it is called with the router's parameters.
   */
  lemma PairOverrideReplacesTarget(answer: RouterAnswer, w: World, cfg: Config, elapsed: string, toolbar: string)
    requires answer.Handled? && answer.controller.Name? && !IsEmptyName(answer.controller.name)
    requires w.override.PairOverride?
    ensures var ob := Script(answer, w, cfg, elapsed, toolbar);
      var cls, m := w.override.cls, w.override.methodName;
      && (cls in w.classes ==>
            ConstructedIn(ob.trace) == [cls] &&
            ob.trace[3..5] == [Construct(cls), Trigger(PostControllerConstructor)])
      && (Runnable(w, cls, m) ==> ob.trace[5] == Invoke(CallFor(w, cls, m, answer.params)))
  {
    var d := Decide(answer, w);
    if Completes(d) {
      PlayCompletes(d, w, cfg, elapsed, toolbar);
    } else if Halts(d) {
      HaltedPlay(d, w, cfg, elapsed, toolbar);
    }
    TraceSummary(answer, w, cfg, elapsed, toolbar);
  }

  /** A closure override is echoed, its status kept, and no class is constructed. */
  lemma ClosureOverrideConstructsNothing(answer: RouterAnswer, w: World, cfg: Config, elapsed: string, toolbar: string)
    requires answer.Handled? && answer.controller.Name? && !IsEmptyName(answer.controller.name)
    requires w.override.ClosureOverride?
    ensures var ob := Script(answer, w, cfg, elapsed, toolbar);
      var e := w.override.effect;
      && ConstructedIn(ob.trace) == []
      && ob.body == Finalize(e.output, elapsed, cfg.production, cfg.toolbarEnabled, toolbar)
      && ob.status == (if e.status.Some? then e.status.value else 200)
  {
    PlayCompletes(Decide(answer, w), w, cfg, elapsed, toolbar);
    TraceSummary(answer, w, cfg, elapsed, toolbar);
  }

  /**
   * A controller class is constructed at most once; unless a
   * `[class, method]` override replaces the target, only the routed class,
   * and only when it passed both not-found checks.
   */
  lemma ConstructedAtMostOnce(answer: RouterAnswer, w: World, cfg: Config, elapsed: string, toolbar: string)
    ensures var ob := Script(answer, w, cfg, elapsed, toolbar);
      && |ConstructedIn(ob.trace)| <= 1
      && (|ConstructedIn(ob.trace)| == 1 && !w.override.PairOverride? ==>
            answer.Handled? && answer.controller.Name? &&
            ConstructedIn(ob.trace) == [answer.controller.name] &&
            IsDispatchable(w, answer.controller.name, answer.methodName))
  {
    TraceSummary(answer, w, cfg, elapsed, toolbar);
  }

  /**
   * The constructed controller is called through `_remap` with the method
   * name and the parameters when it has one, otherwise its method is
   * called with the parameters; the `post_controller_constructor` hook
   * runs between construction and call.
   */
  lemma RemapOrMethod(answer: RouterAnswer, w: World, cfg: Config, elapsed: string, toolbar: string)
    requires Decide(answer, w).Instantiate?
    ensures var ob := Script(answer, w, cfg, elapsed, toolbar);
      var d := Decide(answer, w);
      var m := d.call.methodName;
      && ob.trace[3..6] == [Construct(d.cls), Trigger(PostControllerConstructor), Invoke(d.call)]
      && (d.cls in w.remaps ==> d.call == Remap(d.cls, m, answer.params))
      && (d.cls !in w.remaps ==> d.call == Direct(d.cls, m, answer.params))
      && (!w.override.PairOverride? ==> d.cls == answer.controller.name && m == answer.methodName)
  {
    PlayCompletes(Decide(answer, w), w, cfg, elapsed, toolbar);
  }

  /**
   * On the 404 path the status is 404, only the 404 view for the execution
   * context reaches the client, nothing is constructed, and the script
   * exits with status 4 before the `post_controller` hook.
   */
  lemma NotFoundPath(answer: RouterAnswer, w: World, cfg: Config, elapsed: string, toolbar: string)
    requires Script(answer, w, cfg, elapsed, toolbar).outcome.NotFoundExit?
    ensures var ob := Script(answer, w, cfg, elapsed, toolbar);
      && ob.outcome.exitCode == 4
      && ob.status == 404
      && ob.client == (if cfg.isCli then w.cliView else w.htmlView)
      && ob.body == ""
      && HooksOf(ob.trace) == [PreSystem, PreController]
      && ConstructedIn(ob.trace) == []
      && ob.trace[|ob.trace| - 2..] == [SetStatus(404), Exit(4)]
  {
    TraceSummary(answer, w, cfg, elapsed, toolbar);
  }

  /**
   * The hooks fire in the fixed order: `pre_system`, `pre_controller`,
   * `post_controller_constructor` (only when a class is constructed),
   * `post_controller`, `post_system`, and `post_system` comes right after
   * the response is sent.
   */
  lemma HookOrder(answer: RouterAnswer, w: World, cfg: Config, elapsed: string, toolbar: string)
    requires Script(answer, w, cfg, elapsed, toolbar).outcome.Completed?
    ensures var ob := Script(answer, w, cfg, elapsed, toolbar);
      && HooksOf(ob.trace) ==
         (if Decide(answer, w).Instantiate?
          then [PreSystem, PreController, PostControllerConstructor, PostController, PostSystem]
          else [PreSystem, PreController, PostController, PostSystem])
      && ob.trace[|ob.trace| - 2..] == [Send, Trigger(PostSystem)]
  {
    PlayCompletes(Decide(answer, w), w, cfg, elapsed, toolbar);
    TraceSummary(answer, w, cfg, elapsed, toolbar);
  }

  /**
   * On a completing run the body is what reaches the client and is built
   * from what the controller stage wrote. It ends with the toolbar outside
   * production when the toolbar is enabled. What precedes the toolbar is
   * the controller's output when that has no `{elapsed_time}`, and holds
   * no `{elapsed_time}` once a decimal elapsed time is substituted.
   */
  lemma ElapsedTimeInBody(answer: RouterAnswer, w: World, cfg: Config, elapsed: string, toolbar: string)
    requires Script(answer, w, cfg, elapsed, toolbar).outcome.Completed?
    ensures var ob := Script(answer, w, cfg, elapsed, toolbar);
      var output := ControllerEffect(Decide(answer, w), w).output;
      var tail := if !cfg.production && cfg.toolbarEnabled then toolbar else "";
      && ob.client == ob.body
      && ob.outcome.body == ob.body
      && ob.body == Finalize(output, elapsed, cfg.production, cfg.toolbarEnabled, toolbar)
      && |ob.body| >= |tail| && ob.body[|ob.body| - |tail|..] == tail
      && (!Occurs(output, ElapsedTag) ==> ob.body[..|ob.body| - |tail|] == output)
      && (IsDecimal(elapsed) ==> !Occurs(ob.body[..|ob.body| - |tail|], ElapsedTag))
  {
    PlayCompletes(Decide(answer, w), w, cfg, elapsed, toolbar);
  }

  /**
   * Each `{elapsed_time}` the controller wrote becomes the elapsed time in
   * the body: the text before the first placeholder is kept, the
   * placeholder is replaced, and the rest of the body is built from what
   * follows it.
   */
  lemma PlaceholderReplacedInBody(answer: RouterAnswer, w: World, cfg: Config, elapsed: string, toolbar: string,
                                  a: string, b: string)
    requires Script(answer, w, cfg, elapsed, toolbar).outcome.Completed?
    requires ControllerEffect(Decide(answer, w), w).output == a + ElapsedTag + b
    requires !Occurs(a + ElapsedTag[..|ElapsedTag| - 1], ElapsedTag)
    ensures Script(answer, w, cfg, elapsed, toolbar).body ==
            a + elapsed + Finalize(b, elapsed, cfg.production, cfg.toolbarEnabled, toolbar)
  {
    PlayCompletes(Decide(answer, w), w, cfg, elapsed, toolbar);
    ElapsedTimeAtPlaceholder(a, b, elapsed, cfg.production, cfg.toolbarEnabled, toolbar);
  }

  /**
   * As written, an empty controller is not shown the 404 page: the flag it
   * sets is never read, and the script completes with status 200 and
   * every hook after `pre_controller` firing, where the corrected decision
   * exits on the 404 path.
   */
  lemma EmptyControllerCompletesAsWritten(answer: RouterAnswer, w: World, cfg: Config, elapsed: string, toolbar: string)
    requires answer.Handled? && answer.controller.Name? && IsEmptyName(answer.controller.name)
    ensures var asWritten := Play(DecideAsWritten(answer, w), w, cfg, elapsed, toolbar);
      && asWritten.outcome.Completed?
      && asWritten.status == 200
      && HooksOf(asWritten.trace) == [PreSystem, PreController, PostController, PostSystem]
      && Script(answer, w, cfg, elapsed, toolbar).outcome == NotFoundExit(UnknownFileExit)
  {
    PlayTrace(DecideAsWritten(answer, w), w, cfg, elapsed, toolbar);
  }
}
