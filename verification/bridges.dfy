/** The completion bridges: what happens, in terms of completion-callback calls, when the
    framework invokes a synthesized `function(done)`. The generator driver and promise
    settlement are external; they enter as the settled `Outcome` (or none, if never settled). */
module Bridges {

  import opened Wrappers
  import opened Values

  /** How a promise (the generator driver's, or one a plain function returned) settles. */
  datatype Outcome = Succeeded(value: Value) | Failed(error: Value)

  /** How the synchronous call of the user function ends. */
  datatype CallOutcome = Returned(value: Value) | Threw(error: Value)

  /** The world a bridge runs in: the end of the user function's synchronous call (read by
      the plain bridge only) and the settlement of the awaited promise, if it ever settles. */
  datatype World = World(call: CallOutcome, settlement: Option<Outcome>)

  /** One call of the completion callback: `done(args...)` or `done.fail(error)`. */
  datatype Completion = Done(args: seq<Value>) | Fail(error: Value)

  /** How the bridge call itself ends: it returns a value, returns the promise chained onto
      the generator driver, or lets the user function's exception propagate. */
  datatype Exit = ReturnValue(value: Value) | ReturnChained | Raise(error: Value)

  /** The `this` the user function received, the completions made before the bridge
      returns, those made later by the attached handlers, and how the bridge ended. */
  datatype Run = Run(userThis: Value, sync: seq<Completion>, deferred: seq<Completion>, exit: Exit)

  /** `.then(done, done.fail)`: a fulfilment passes its value to `done`, a rejection its reason to `done.fail`. */
  function Report(o: Outcome): (c: Completion)
    ensures c.Done? <==> o.Succeeded?
    ensures o.Succeeded? ==> c.args == [o.value]
    ensures o.Failed? ==> c.error == o.error
  {
    match o
    case Succeeded(v) => Done([v])
    case Failed(e) => Fail(e)
  }

  /** Reading a completion back as the outcome it reports: the inverse of `Report`. */
  function Reported(c: Completion): Outcome
    requires c.Done? ==> |c.args| == 1
  {
    match c
    case Done(args) => Succeeded(args[0])
    case Fail(e) => Failed(e)
  }

  lemma ReportRoundTrip(o: Outcome)
    ensures Reported(Report(o)) == o
  {
  }

  /** Handlers attached to a promise fire once it settles, and not at all if it never does. */
  function Deferred(settlement: Option<Outcome>): seq<Completion> {
    if settlement.Some? then [Report(settlement.value)] else []
  }

  function RunBridge(b: Value, thisArg: Value, w: World): (r: Run)
    requires b.Bridge?
    ensures r.userThis == thisArg
    ensures |r.sync| + |r.deferred| <= 1
    ensures r.exit.Raise? <==> b.kind == PlainBridge && w.call.Threw?
    ensures r.exit.Raise? ==> r.exit.error == w.call.error && r.sync == [] && r.deferred == []
    ensures b.kind == CoBridge ==> r.sync == [] && r.exit == ReturnChained
    ensures r.sync != [] ==> r.sync == [Done([])]
    ensures r.deferred != [] ==> w.settlement.Some? && r.deferred == [Report(w.settlement.value)]
    ensures !r.exit.Raise? && w.settlement.Some? ==> |r.sync| + |r.deferred| == 1
    ensures b.kind == PlainBridge && w.call.Returned? ==>
      && (r.sync != [] <==> !HasCallableThen(w.call.value))
      && r.exit == ReturnValue(if HasCallableThen(w.call.value) then Undefined else w.call.value)
  {
    match b.kind
    case CoBridge =>
      Run(thisArg, [], Deferred(w.settlement), ReturnChained)
    case PlainBridge =>
      match w.call
      case Threw(e) => Run(thisArg, [], [], Raise(e))
      case Returned(v) =>
        if !HasCallableThen(v) then Run(thisArg, [Done([])], [], ReturnValue(v))
        else Run(thisArg, [], Deferred(w.settlement), ReturnValue(Undefined))
  }

  /** All completions of a run, in the order they are made. */
  function Completions(r: Run): seq<Completion> {
    r.sync + r.deferred
  }

  /** The generator bridge reports the driver's outcome exactly once, never synchronously:
      success becomes `done(value)`, failure `done.fail(error)`, never both. */
  lemma {:induction false} CoBridgeReportsDriverOutcome(user: Value, thisArg: Value, call: CallOutcome, o: Outcome)
    ensures var r := RunBridge(Bridge(CoBridge, user), thisArg, World(call, Some(o)));
      && r.sync == []
      && |Completions(r)| == 1
      && Reported(Completions(r)[0]) == o
  {
    var r := RunBridge(Bridge(CoBridge, user), thisArg, World(call, Some(o)));
    assert Completions(r) == [Report(o)];
    ReportRoundTrip(o);
  }

  /** The plain bridge, for a function that returns normally: a non-thenable result completes at
      once with `done()` and is returned; a thenable defers to its settlement, which is reported once. */
  lemma {:induction false} PlainBridgeCompletion(user: Value, thisArg: Value, v: Value, s: Option<Outcome>)
    ensures var r := RunBridge(Bridge(PlainBridge, user), thisArg, World(Returned(v), s));
      && (!HasCallableThen(v) ==> Completions(r) == [Done([])] && r.exit == ReturnValue(v))
      && (HasCallableThen(v) ==> r.sync == [] && (s.Some? <==> |Completions(r)| == 1))
      && (HasCallableThen(v) && s.Some? ==> Reported(Completions(r)[0]) == s.value)
  {
    var r := RunBridge(Bridge(PlainBridge, user), thisArg, World(Returned(v), s));
    if HasCallableThen(v) && s.Some? {
      assert Completions(r) == [Report(s.value)];
      ReportRoundTrip(s.value);
    }
  }

  /** A failure reported by a bridge carries exactly the error the user code failed with. */
  lemma FailureCarriesUserError(b: Value, thisArg: Value, w: World, e: Value)
    requires b.Bridge?
    ensures Fail(e) in Completions(RunBridge(b, thisArg, w)) <==>
      (b.kind == CoBridge || (w.call.Returned? && HasCallableThen(w.call.value))) && w.settlement == Some(Failed(e))
  {
  }

}
