# CodeIgniter 4 front controller and request variables, in Dafny

This project models two parts of an early CodeIgniter 4 and proves
properties about them.

**The front-controller script `system/CodeIgniter.php`.** The model covers
the script from the `pre_system` hook to the `post_system` hook, in these
steps:

- It sets status 200 on the response.
- It asks the router for a controller. A redirect route short-circuits: the
  script redirects and exits.
- It resolves the target:
  - a routed closure is echoed, and may set the status;
  - an empty controller, a missing class, a method starting with `_`, or a
    target with neither `_remap` nor a callable method sets the not-found
    flag;
  - a truthy 404 override (a closure, a `[class, method]` pair or any
    other truthy value) clears that flag. A closure override is echoed. A pair
    replaces the routed target; when its class does not exist, or its
    method can be neither called nor reached through `_remap`, the script
    aborts with an error and sends nothing.
- On the 404 path it shows the 404 view for the execution context (CLI or
  HTML) and exits with status 4.
- Otherwise it constructs the controller (the pair's class, when a pair
  override replaced the target), triggers `post_controller_constructor`,
  and calls `_remap` or the method. It does not when the override is still
  set: after a closure or another truthy override, and after a falsy
  override other than `null` (`false`, `''`, `[]`). Such a falsy override
  is not consulted, so a failed target still gets the 404, but a valid
  target is not run either.
- It runs the `post_controller` hook, captures the output, replaces every
  `{elapsed_time}`, appends the debug toolbar outside production when the
  toolbar is enabled, sets and sends the body, and runs `post_system`.

**Request variable lookup on an incoming request.** `getGet`, `getPost`,
`getServer`, `getEnv` and `getCookie` each read a superglobal. Each takes
no key (the whole array), one key (its value, or null) or a list of keys
(the sub-array), with an optional `FILTER_SANITIZE_ENCODED`. `getPostGet`
and `getGetPost` combine two arrays. The behaviour modelled is the one the
request tests fix.

The modules are:

- `Output`: `str_replace` of the elapsed-time placeholder, and the toolbar
  suffix.
- `Dispatch`: the routing decision, and `Script`, a pure reference for
  everything the script observably does.
- `FrontController`: the class `Lifecycle`. Its fields are the response's
  status, redirect target and body, the output buffer, the text sent to the
  client, and the trace of steps. Its methods update them in place. `Run`
  is proved equal to `Script`.
- `DispatchProperties`: what the script promises, for every router answer,
  reflection outcome and override.
- `UrlEncoding`: the encoding filter, and `rawurldecode` as its inverse.
- `RequestVars`: the superglobal lookups.

Code outside the script is a parameter of the model:

- the router's answer;
- `class_exists`, `method_exists` and `is_callable`;
- the override;
- what a controller writes and the status it sets;
- the 404 views;
- the timer's elapsed time;
- the toolbar's output.

## Model

| member | source | states |
|---|---|---|
| Output.ReplaceAll | system/CodeIgniter.php:348 | `str_replace` leaves the text alone when the placeholder is replaced by itself |
| Output.ReplaceFirstOccurrence | system/CodeIgniter.php:348 | The text before the first occurrence is kept, that occurrence becomes the replacement, and replacement goes on in the rest: `a + pat + b` becomes `a + rep + ReplaceAll(b)` when `pat` first occurs there |
| Output.ReplaceWithoutOccurrence | system/CodeIgniter.php:348 | Text in which the pattern does not occur comes back unchanged |
| Output.NoOccurrenceRemains | system/CodeIgniter.php:348 | After replacement, no occurrence of the pattern is left, provided the replacement is non-empty and shares no character with the pattern |
| Output.ElapsedTimeSubstituted | system/CodeIgniter.php:346-348 | A decimal elapsed time leaves no `{elapsed_time}` in the output |
| Output.Finalize | system/CodeIgniter.php:343-358 | The body ends with the toolbar outside production when it is enabled. The part before the toolbar is the captured output when that holds no placeholder, and holds no placeholder once a decimal time is substituted |
| Output.ElapsedTimeAtPlaceholder | system/CodeIgniter.php:346-358 | When the output is `a`, the first `{elapsed_time}`, then `b`, the body is `a`, the elapsed time, then the finalized `b` |
| Dispatch.CallFor | system/CodeIgniter.php:319-326 | The call is `_remap` exactly when the class has one. Class, method and parameters are passed through |
| Dispatch.Decide | system/CodeIgniter.php:207-329 | A redirect exactly for a redirect route. A closure with its own effect exactly for a routed closure. The 404 path exactly for an empty controller, or for a failed check with no truthy override. A missing-class or uncallable-method error exactly for a `[class, method]` override whose class is missing or whose method cannot be reached. With a `null` override, a target that passes the checks is instantiated with its method and the router's parameters; a runnable pair is instantiated in its place; a closure override is echoed; another truthy override, or a falsy non-null one on a valid target, runs nothing |
| Dispatch.DecideAsWritten | system/CodeIgniter.php:246-306 | As the code is written, the 404 path is taken exactly for a non-empty class target that fails the checks with no override, so never for an empty controller. It differs from `Decide` exactly on an empty controller |
| Dispatch.PlayCompletes | system/CodeIgniter.php:230-368 | A completing run takes these steps in order: `pre_system`, status 200, `pre_controller`, the controller stage, `post_controller`, send, `post_system`. The body is the finalized controller output |
| Dispatch.ScriptRedirects | system/CodeIgniter.php:207-220 | A redirect route: `pre_system`, status 200, the redirect with the route's URL and code, then exit. Nothing is written |
| Dispatch.ScriptNotFound | system/CodeIgniter.php:281-306 | The 404 path: status 404 and exit 4 after `pre_controller`. Only the 404 view reaches the client |
| Dispatch.ScriptHalts | system/CodeIgniter.php:281-327 | A run that stops in the controller stage: `pre_system`, status 200, `pre_controller`, then the stop's own steps. Only the 404 path sets status 404 and shows its view; an aborted override sends nothing and keeps status 200 |
| FrontController.Lifecycle.Run | system/CodeIgniter.php:157-368 | The imperative script leaves exactly what `Dispatch.Script` describes: outcome, steps, status, redirect target, body and client text |
| FrontController.Lifecycle.RunController | system/CodeIgniter.php:237-329 | It stops exactly on the 404 path or an override that throws. On the 404 path it sets status 404 and flushes the buffer and the 404 view to the client; on a throw it keeps status and buffer. Otherwise it adds the controller's steps and output, and keeps the status unless the controller sets one |
| FrontController.Lifecycle.ConstructAndCall | system/CodeIgniter.php:308-327 | A missing class throws before anything is constructed. A method that is neither callable nor covered by `_remap` throws after construction and `post_controller_constructor`. Otherwise the class is constructed, the hook fires, and `_remap` or the method is called; its output is buffered and its status kept |
| FrontController.Lifecycle.Echo | system/CodeIgniter.php:240-243 | A closure's output is appended to the buffer, and the status changes only if the closure sets one |
| FrontController.Lifecycle.SendOutput | system/CodeIgniter.php:331-368 | The body is the finalized buffer and reaches the client. The buffer is emptied. The steps added are `post_controller`, send, `post_system` |
| DispatchProperties.PlayTrace | system/CodeIgniter.php:157-368 | The hooks fired and the classes constructed, for each kind of decision, including a stop on the 404 path and an override that throws |
| DispatchProperties.TraceSummary | system/CodeIgniter.php:157-368 | The same, for the script's own decision on any router answer |
| DispatchProperties.StatusIsSuccessBeforeRouting | system/CodeIgniter.php:171-172 | Every run starts with `pre_system` and then status 200 |
| DispatchProperties.RedirectShortCircuits | system/CodeIgniter.php:207-220 | A redirect route leads to a redirect with the route's code and URL. No later hook runs, nothing is constructed, there is no body, and the last step is exit |
| DispatchProperties.EmptyControllerNotFound | system/CodeIgniter.php:246-249 | An empty controller ends on the 404 path, whatever the override |
| DispatchProperties.ClassTargetNotFound | system/CodeIgniter.php:253-263 | Without a truthy override, a class target gets the 404 exactly when its class is missing, its method starts with `_`, or it has neither `_remap` nor a callable method |
| DispatchProperties.ValidTargetRuns | system/CodeIgniter.php:308-326 | With a `null` override, a routed class that passes both checks is the one class constructed, right after `pre_controller`, then `post_controller_constructor` fires and `_remap` or the method is called with the router's parameters; the run completes with that call's output as the body |
| DispatchProperties.FalsyOverrideRunsNothing | system/CodeIgniter.php:263-308 | A falsy override other than `null` leaves a failed target on the 404 path. For a valid target nothing is constructed, no constructor hook fires, the status stays 200 and the captured output is empty |
| DispatchProperties.OverrideClearsNotFound | system/CodeIgniter.php:262-278 | With any truthy override, a class target never takes the 404 path. It completes unless a `[class, method]` override cannot be run. The status is 404 only if the override's controller or closure sets it, and 200 for other overrides |
| DispatchProperties.OverrideTargetThrows | system/CodeIgniter.php:269-327 | A `[class, method]` override with a missing class aborts with that class named, after `pre_system` and `pre_controller` only, constructing nothing. One whose method cannot be reached aborts after constructing the class and firing `post_controller_constructor`. Either way status 200 and nothing is sent |
| DispatchProperties.PairOverrideReplacesTarget | system/CodeIgniter.php:269-275 | A `[class, method]` override whose class exists is the only class constructed, right after `pre_controller`, even when the routed target is valid. When it can be run, it is called with the router's parameters |
| DispatchProperties.ClosureOverrideConstructsNothing | system/CodeIgniter.php:265-268 | A closure override's output is the finalized body, its status is kept, and no class is constructed |
| DispatchProperties.ConstructedAtMostOnce | system/CodeIgniter.php:308-310 | At most one class is constructed. Unless a `[class, method]` override replaced the target, it is the routed class, and only when that class passed both not-found checks |
| DispatchProperties.RemapOrMethod | system/CodeIgniter.php:310-326 | Construction, `post_controller_constructor` and the call come in that order. The call is `_remap(method, params)` when the class has `_remap`, otherwise `method(params)`. Unless a pair override replaced the target, the class and method are the routed ones |
| DispatchProperties.NotFoundPath | system/CodeIgniter.php:281-306 | The 404 path: exit code 4 and status 404. The client gets the CLI or HTML 404 view and nothing else. No body, no construction, only `pre_system` and `pre_controller`. It ends with status 404 and then exit 4 |
| DispatchProperties.HookOrder | system/CodeIgniter.php:157-368 | A completing run fires `pre_system`, `pre_controller`, `post_controller_constructor` (only when a class is constructed), `post_controller`, `post_system`. `post_system` comes right after send |
| DispatchProperties.ElapsedTimeInBody | system/CodeIgniter.php:343-362 | The body is what is sent, and is the finalized controller output. Outside production with the toolbar enabled it ends with the toolbar. Before the toolbar it is the controller output when that has no placeholder, and holds no placeholder when the time is decimal |
| DispatchProperties.PlaceholderReplacedInBody | system/CodeIgniter.php:343-360 | The text before the first `{elapsed_time}` of the controller output starts the body, followed by the elapsed time and the finalized rest |
| DispatchProperties.EmptyControllerCompletesAsWritten | system/CodeIgniter.php:246-306 | As written, an empty controller completes with status 200 and the four non-constructor hooks. The corrected script exits on the 404 path |
| UrlEncoding.EncodeChar | tests/HTTP/IncomingRequestTest.php:97-107 | An unreserved byte is kept. Any other byte becomes `%` and two hex digits whose value is the byte |
| UrlEncoding.Encode | tests/HTTP/IncomingRequestTest.php:97-107 | The filter never shortens a value, and it writes only unreserved bytes and `%` |
| UrlEncoding.Decode | tests/HTTP/IncomingRequestTest.php:97-107 | `rawurldecode` never lengthens, and it leaves text without `%` unchanged |
| UrlEncoding.DecodeEncode | tests/HTTP/IncomingRequestTest.php:97-107 | `rawurldecode` undoes the filter on every byte string |
| UrlEncoding.EncodeIdentity | tests/HTTP/IncomingRequestTest.php:97-107 | The filter leaves a value unchanged exactly when every byte is unreserved |
| UrlEncoding.EncodeTagged | tests/HTTP/IncomingRequestTest.php:126-142 | Around unreserved text, only `<` and `>` change, to `%3C` and `%3E` |
| UrlEncoding.BarScriptEncoded | tests/HTTP/IncomingRequestTest.php:106 | `bar<script>` is filtered to `bar%3Cscript%3E` |
| RequestVars.Select | tests/HTTP/IncomingRequestTest.php:146-160 | The selection holds exactly the listed keys the array has, with the array's values |
| RequestVars.FetchGlobal | tests/HTTP/IncomingRequestTest.php:83-178 | No key gives an array with all the keys. One key gives null exactly when the key is missing. A key list gives an array with exactly the listed keys present |
| RequestVars.GetLookup | tests/HTTP/IncomingRequestTest.php:22-28 | `getGet` gives the stored value, or null for a missing key |
| RequestVars.PostLookup | tests/HTTP/IncomingRequestTest.php:32-38 | `getPost` gives the stored value, or null for a missing key |
| RequestVars.ServerEnvCookieLookup | tests/HTTP/IncomingRequestTest.php:53-79 | `getServer`, `getEnv` and `getCookie` give the stored value, or null for a missing key |
| RequestVars.Precedence | tests/HTTP/IncomingRequestTest.php:42-49 | `getPostGet` prefers POST and `getGetPost` prefers GET. Each falls back to the other array, then to null |
| RequestVars.PostBeforeGetExample | tests/HTTP/IncomingRequestTest.php:42-49 | With POST 5 and GET 3 under one key, `getPostGet` gives 5 and `getGetPost` gives 3 |
| RequestVars.SingleKeyUnaffected | tests/HTTP/IncomingRequestTest.php:83-93 | A single-key lookup does not depend on any other entry of its array |
| RequestVars.OtherArraysIrrelevant | tests/HTTP/IncomingRequestTest.php:22-79 | A lookup in one superglobal does not depend on the others |
| RequestVars.WholeArray | tests/HTTP/IncomingRequestTest.php:111-122 | With no key and no filter, the lookup gives the whole array |
| RequestVars.KeyListIsSubArray | tests/HTTP/IncomingRequestTest.php:146-160 | A key list gives exactly the listed keys present, each with the value its single-key lookup gives |
| RequestVars.KeyListValues | tests/HTTP/IncomingRequestTest.php:146-160 | Each value from a key list is the array's own value |
| RequestVars.FilterEachValue | tests/HTTP/IncomingRequestTest.php:97-178 | A filtered lookup is the unfiltered lookup with every value encoded, for each kind of index |
| RequestVars.FilterUndone | tests/HTTP/IncomingRequestTest.php:97-178 | `rawurldecode` on every value of a filtered lookup gives the unfiltered lookup |
| RequestVars.ScriptTagAfter | tests/HTTP/IncomingRequestTest.php:97-107 | After unreserved text, `<script>` is filtered to `%3Cscript%3E` |
| RequestVars.SingleValueExample | tests/HTTP/IncomingRequestTest.php:83-93 | In the four-entry array, `bar` gives `baz` and a missing key gives null |
| RequestVars.FilterSingleValueExample | tests/HTTP/IncomingRequestTest.php:97-107 | Filtered, `foo` gives `bar%3Cscript%3E` |
| RequestVars.WholeArrayExample | tests/HTTP/IncomingRequestTest.php:111-122 | With no key, the four-entry array comes back as it is |
| RequestVars.FilterAllValuesExample | tests/HTTP/IncomingRequestTest.php:126-142 | With no key and the filter, every value comes back with `%3C`/`%3E` |
| RequestVars.SelectedKeysExample | tests/HTTP/IncomingRequestTest.php:146-160 | `['foo', 'bar']` gives exactly those two entries |
| RequestVars.FilterSelectedValuesExample | tests/HTTP/IncomingRequestTest.php:164-178 | `['foo', 'bar']` with the filter gives those two entries, filtered |

## Left out

- Bootstrap before `pre_system` and the benchmark calls are not modelled. This covers constants, the autoloader, `system/Config/AutoloadConfig.php`, services and the timer's marks. The elapsed time is a parameter.
- `force_https` and CSRF verification (lines 178-192) are left out. Each happens before routing and is calls into code outside the script.
- Route matching (`Config/Routes.php` and the router) is not modelled. The router's answer, its method name, its parameters and its 404 override are inputs.
- The redirect is modelled as the route's URL and the exception's code. The `'auto'` method choice inside `Response::redirect` and what it sends are not modelled. The logger call is left out.
- The `is_callable` test on a routed value is modelled for closures only. A string naming a global function is not modelled.
- What a controller's constructor does is not modelled. A controller call is modelled only by the text it writes and the status it may set.
- Dispatch.ControllerEffect: a closure, routed or the override, is modelled by the text it returns and the status it may set. Anything else it does to the request or response is not modelled.
- Hooks are modelled as steps that write nothing. Output echoed by a `post_controller_constructor` or `post_controller` hook would land in the captured body. Output of the other hooks would go to the client directly. Neither is modelled.
- What the exception handler does with the error from a missing override class (line 310) or an uncallable override method (line 325) is not modelled: its page, its exit code and the flushing of the buffer. An aborted run is modelled as sending nothing, with status 200.
- Dispatch.Decide: it follows the corrected placement of the 404 display, where an empty controller also takes the 404 path. Dispatch.DecideAsWritten is the code's own version; see Findings.
- FrontController.Lifecycle.Run: it follows the corrected placement of the 404 display, through `Dispatch.Decide`. The code as written is `Dispatch.DecideAsWritten`.
- FrontController.Lifecycle.RunController: it follows the corrected placement of the 404 display, through `Dispatch.Decide`. The code as written is `Dispatch.DecideAsWritten`.
- The debug toolbar's rendering is not modelled. Its output is a parameter.
- The 404 views' rendering is not modelled. Their output is a parameter.
- The override is consulted for every class target, including a valid one (lines 262-278).
- `system/HTTP/IncomingRequest.php` is not part of this model. The request lookups are modelled as its tests fix them.
- RequestVars.Select: a listed key missing from the array is left out of the result. The tests do not fix this case.
- RequestVars.FetchGlobal: PHP arrays keep insertion order. Maps do not, so the order of a returned array is not modelled.
- Superglobal values are modelled as strings, so the tests' integer `5` is written `"5"`. Nested arrays as values are not modelled.
- `getPostGet` and `getGetPost` are modelled with a single key and a single filter only.
- PHP strings are bytes. Here each `char` stands for one byte, and the round trip with `rawurldecode` is proved for strings whose characters are all below 256.

## Findings

| source | as written | input that shows it | evidently intended | confidence | as-written member | corrected member |
|---|---|---|---|---|---|---|
| system/CodeIgniter.php:246-306 | An empty controller sets `$e404` at line 248, but the 404 display at lines 281-306 is inside the `else` that starts at line 250. The flag is never read: the script goes on to `post_controller`, sends an empty body with status 200, and fires `post_system` | The router returns an empty controller (`""` or `null`) with no override | The 404 view, status 404 and exit code 4, as for every other not-found target | high, not executed | DispatchProperties.EmptyControllerCompletesAsWritten | DispatchProperties.EmptyControllerNotFound |
