# jasmine-co, modelled in Dafny

jasmine-co lets Jasmine's registration functions (`it`, `fit`, `beforeEach`, `afterEach`,
`beforeAll`, `afterAll`) accept generator functions and promise-returning functions. It does
this by swapping each global registration function for a wrapper. When a registration call
arrives, the wrapper finds the user function among its arguments. It classifies that function
as a generator, a zero-parameter plain function, or a self-managing function. For the first
two kinds it builds a `function(done)` bridge and forwards `(description?, bridge, ...rest)`
to the original registration function. A self-managing function is forwarded untouched.

The model has six modules:

- `Wrappers` (`wrappers.dfy`): `Option`.
- `Values` (`values.dfy`): the JavaScript values the adapter inspects, and how it reads them.
  This covers truthiness, the `length` property, the generator tag and a callable `then`.
  The wrapper and the bridge are values too, so a wrapper can be stored in the globals and
  called later.
- `Classifier` (`classifier.dfy`): the three-way kind decision. It also covers how a call's
  arguments are split into description, user function and trailing arguments, and how they
  are put back together.
- `Bridges` (`bridges.dfy`): what a bridge does when the framework calls it. A bridge makes
  completion calls (`done(...)` or `done.fail(e)`) either synchronously or from handlers
  attached to a promise. It can also let the user function's exception escape.
- `Wrapping` (`wrapping.dfy`): the wrapper function that `wrapFn` returns, the module's direct
  entry point `jasmineCo(f)`, and how the framework calls a function it is given. Jasmine
  passes a completion callback only to functions that declare parameters.
- `Registry` (`registry.dfy`): the process-wide state. It holds the global surface, the
  captured originals, the configured name list and the installed flag. `install`,
  `uninstall`, `isInstalled` and `setOverrideMethods` are pure state transitions. `install`
  is proved equal to an independent, set-based reference definition of what it records.

In these details the model follows the code:

- On success, the generator bridge and the promise path call `done(value)`, not `done()`.
  Only a plain function whose result is not a thenable gets `done()` with no arguments.
- A synchronous throw from a plain function escapes the bridge. It is not turned into
  `done.fail`.
- `setOverrideMethods` accepts any array, even an empty one. An empty array means that
  install intercepts nothing.
- `installed` is `undefined` until the first `install` or `uninstall`, so it is modelled as
  `Option<bool>`.
- Install skips a name when its global binding is falsy or when a truthy original is already
  recorded for it. The test is truthiness, not key presence.
- `jasmineCo(f)` is `wrapFn(f)`, a wrapper that expects no description (see Findings).

The generator driver and promise settlement are outside the program. They enter the model as
parameters. The driver's result, or the settlement of a returned thenable, is a
`Succeeded(v) | Failed(e)` outcome, or no outcome at all if it never settles. The user
function's synchronous call ends in `Returned(v) | Threw(e)`. The `this` object is an opaque
value that is passed through.

## Model

| member | source | states |
|---|---|---|
| `Classifier.Classify` | index.js:52-83 | A generator always goes to the generator bridge, and only a generator does. A truthy non-generator whose `length` is 0 or absent is plain, and a wrapper (length 0) is plain too. A non-generator with a nonzero numeric `length`, such as a bridge (length 1), is passed through. So is a missing or falsy user function. |
| `Classifier.ClassifyFunction` | index.js:52-64 | For a user-written function, the kind depends only on the generator tag and the arity. Generator iff tagged, whatever the arity. Plain iff untagged with arity 0. Passthrough iff untagged with arity at least 1. |
| `Classifier.Split` | index.js:49-50 | The description slot exists exactly when the name expects one, and it is argument 0. The user function is argument 1 for `it`/`fit`/`xit` and argument 0 otherwise, or `undefined` past the end. `rest` is every argument after it, in order, and is empty when there are none. |
| `Classifier.Assemble` | index.js:58-62 | The forwarded list is the description (if any), then the bridge, then `rest`, at fixed positions. |
| `Classifier.SplitAssembleRoundTrip` | index.js:49-62 | Re-assembling a split call with its own user function gives back the original argument list. |
| `Classifier.AssembleSplitRoundTrip` | index.js:49-62 | Splitting an assembled list recovers the description and `rest`, with the user function replaced by the one inserted. |
| `Bridges.Report` | index.js:59 | `.then(done, done.fail)`: a fulfilment calls `done` with exactly the value, and a rejection calls `done.fail` with exactly the reason. |
| `Bridges.ReportRoundTrip` | index.js:59 | The completion call identifies the outcome it reports. |
| `Bridges.RunBridge` | index.js:58-76 | A bridge run makes at most one completion call. It makes exactly one when the awaited outcome settles and the user function did not throw synchronously. The generator bridge never completes synchronously and returns the chained promise. The plain bridge calls `done()` synchronously and returns the result iff the result has no callable `then`; otherwise it waits for the settlement. A synchronous throw escapes with the same error and no completion. |
| `Bridges.CoBridgeReportsDriverOutcome` | index.js:58-60 | The generator bridge reports the driver's outcome exactly once and asynchronously: `done(v)` on success, `done.fail(e)` on failure, never both. |
| `Bridges.PlainBridgeCompletion` | index.js:68-75 | A non-thenable result leads to exactly one `done()` and is returned. A thenable result leads to no synchronous completion, and to exactly one completion, reporting the settlement, iff it settles. |
| `Bridges.FailureCarriesUserError` | index.js:58-75 | The bridge calls `done.fail(e)` iff the awaited promise rejected with exactly `e`. That promise is the generator driver's or a returned thenable's. |
| `Wrapping.InvokeWrapper` | index.js:47-85 | The wrapper always calls the original registration function. On passthrough it forwards the arguments unchanged. Otherwise the user function's slot holds its bridge and every other slot keeps its argument, so the description and timeout keep their positions. A missing description is forwarded as `undefined`, and the forwarded list has the same length as the original. |
| `Wrapping.WrappedGeneratorForwarding` | index.js:58-63 | `it(desc, gen, timeout)` becomes `orig(desc, bridge, timeout)`. The framework passes that bridge a completion callback, and the bridge reports the driver outcome exactly once. |
| `Wrapping.WrappedPlainForwarding` | index.js:68-79 | `beforeEach(plainFn, timeout)` becomes `orig(bridge, timeout)`, and the framework passes the bridge a completion callback. |
| `Wrapping.SelfManagingPassthrough` | index.js:80-83 | A non-generator function that declares parameters is forwarded exactly as the original call was made. |
| `Wrapping.JasmineCo` | index.js:16-18 | The module export wraps `f` in a wrapper that expects no description and declares no parameters (length 0). |
| `Wrapping.DirectEntryAsWritten` | index.js:16-18 | The framework calls `jasmineCo(f)` with no arguments, and the wrapper then calls `f` directly with no arguments and no bridge. |
| `Wrapping.DirectEntryGeneratorNotDriven` | index.js:16-18 | For a generator `f`, the only call made is `f()`, so its body is never driven. |
| `Wrapping.JasmineCoFixed` | index.js:16-18 | Intended direct entry: a generator gets the generator bridge, a zero-parameter function gets the plain bridge, and a self-managing function is returned as is. |
| `Wrapping.DirectEntryFixedDrivesGenerator` | index.js:16-18 | With the intended entry, the framework gives a generator's bridge a completion callback, and the driver outcome is reported exactly once. |
| `Registry.CoifyJasmineFn` | index.js:39-45 | After one step the name is no longer replaceable. Every other name's binding and original are unchanged. A missing or falsy binding, or one whose original is already recorded, leaves the state untouched. Otherwise the binding is recorded and replaced by a wrapper, which expects a description iff the name is `it`, `fit` or `xit`. |
| `Registry.CoifyAll` | index.js:20-22 | After the `forEach` pass, no listed name is replaceable any more. Names outside the list keep their bindings and originals, and the list and flag are unchanged. |
| `Registry.CoifyAllReference` | index.js:20-22 | The in-order pass over a name list, duplicates included, equals the set-based reference. Each listed, replaceable name has its binding recorded and wrapped, and nothing else changes. |
| `Registry.Install` | index.js:19-24 | Install applies the reference pass to the configured list, or to the default list when none is set, and sets the flag to true. |
| `Registry.Uninstall` | index.js:25-31 | Every recorded original is written back. Unrecorded names keep their bindings. The record is emptied and the flag set to false. |
| `Registry.SetOverrideMethods` | index.js:35-37 | An array becomes the active list, even when empty; anything else restores the default list. Globals, originals and the flag are unchanged. |
| `Registry.IsInstalled` | index.js:32-34 | On a valid registry, the flag reports installed whenever some binding is overridden. |
| `Registry.InstalledFlagLifecycle` | index.js:13-34 | `isInstalled` is `undefined` at load time, `true` after install and `false` after uninstall. Configuring the list leaves it unchanged. |
| `Registry.OperationsPreserveValid` | index.js:19-45 | Every operation preserves the registry invariant. Each recorded original is truthy and its name is bound to the wrapper around it. Something is recorded only while installed. |
| `Registry.InstallIdempotent` | index.js:41 | A second install with no uninstall in between changes nothing: there is no double wrapping and the first captured original is kept. |
| `Registry.InstallTouchesOnlyActiveNames` | index.js:39-44 | A name outside the active list, or one that is not replaceable, keeps its binding and its original. |
| `Registry.InstallWrapsReplaceableNames` | index.js:43-44 | An active, replaceable name has its binding captured and replaced by a different value, the wrapper around it. |
| `Registry.UninstallUndoesInstall` | index.js:25-31 | On a valid registry, uninstall after install equals uninstall alone. |
| `Registry.InstallThenUninstallRestores` | spec/jasmine-co.spec.js:22-28 | Starting from an empty record, install then uninstall restores every binding exactly. |
| `Registry.LimitedOverrideList` | spec/jasmine-co.spec.js:56-67 | With a configured list, install leaves every unlisted binding as it was. |
| `Registry.ResetThenReinstallCoversDefaults` | spec/jasmine-co.spec.js:68-81 | Install with a custom list, then reset the list and install again. Every default name ends up wrapped exactly once around its original binding. |
| `Registry.InstalledItForwards` | index.js:43-44 | After install, the installed `it` forwards `(desc, bridge, timeout)` to the captured original `it`. |
| `Registry.InstalledBeforeEachForwards` | index.js:43-44 | After install, the installed `beforeEach` forwards `(bridge, timeout)` to the captured original `beforeEach`. |

## Left out

- The generator driver (`co`) and the `is-generator` test are external libraries. The driver is an abstract settled outcome, and the test is the `generator` tag on a function value.
- The framework's registration functions, its `this` binding and its timeout enforcement are left out. A forwarded call is recorded as a `Call` value, and `this` is an opaque value.
- Promise scheduling and the event loop are left out: the model records which handler fires, not when.
- A thenable that calls both of its handlers, or one of them twice, is not modelled. A settlement is a single outcome.
- The return value of the original registration function, which the wrapper passes back, is not modelled.
- Wrapper identity is not modelled. Each `wrapFn` call builds a fresh closure, but the model compares `Wrapper(orig, expectsName)` values structurally. So install, uninstall and install again yields a wrapper equal to the first one, where JavaScript yields a distinct one.
- Registry.InstallIdempotent: states structural equality of the state. The test suite checks reference identity (`toBe`), which holds because the second install writes nothing. The model has no reference identity (see the line above).
- Aliasing of the array given to `setOverrideMethods` is not modelled. The code stores the caller's array by reference, so a later mutation of that array changes what `install` iterates. The model stores a copy of the sequence.
- Objects with their own `length` property, such as an array passed where the user function goes, are not modelled. `Length` of an object is always `undefined`, so such an object is classified as plain, whereas `[1]` has length 1 and would be passed through.
- Wrapping.FrameworkInvokes is not part of index.js. It encodes an assumption about Jasmine's calling convention: a completion callback is passed only to a function whose `length` is greater than zero. The finding below rests on that assumption.
- Names that `originalMethods` inherits from `Object.prototype` (such as `constructor`) are not modelled. In JavaScript such a name looks already recorded and would be skipped.
- Array entries that are not strings, and numbers that are not integers (including NaN), are not modelled.
- Code outside the module that writes to the globals between operations is not modelled. The registry invariant covers only the module's own operations.

## Findings

| source | as written | input that shows it | evidently intended | confidence | as-written member | corrected member |
|---|---|---|---|---|---|---|
| index.js:16-18 | `jasmineCo(f)` returns `wrapFn(f)`, a wrapper that declares no parameters. The framework calls it with no arguments, so the wrapper finds no user function, passes through, and calls `f()`. | `it("…", jasmineCo(function*(){ … }))`: calling the generator function only creates a generator object, so its body, and the assertions in it, never run. | `jasmineCo(f)` returns the completion bridge for `f` itself, so the framework passes it `done` and the generator is driven. | medium, not executed | `Wrapping.DirectEntryGeneratorNotDriven` | `Wrapping.JasmineCoFixed` |
