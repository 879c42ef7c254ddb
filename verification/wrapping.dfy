/** The function that `wrapFn` returns, invoked with a registration call's arguments: it
    classifies the user function and forwards a call to the original registration function. */
module Wrapping {

  import opened Wrappers
  import opened Values
  import opened Classifier
  import opened Bridges

  /** `origFn.apply(null, args)`: the call the wrapper makes on the registration function. */
  datatype Call = Call(target: Value, args: seq<Value>)

  /** The bridge synthesized for a non-passthrough user function. */
  function BridgeFor(userFn: Value): Value
    requires Classify(userFn) != Passthrough
  {
    Bridge(BridgeKindOf(Classify(userFn)), userFn)
  }

  /** A passthrough call forwards the arguments unchanged; otherwise the user function's slot
      holds its bridge, every other slot keeps its argument (description and timeout stay
      in place), and a missing description is forwarded as `undefined`. A bridged user
      function is truthy, so it is always among the arguments and the length is kept. */
  function InvokeWrapper(w: Value, args: seq<Value>): (c: Call)
    requires w.Wrapper?
    ensures c.target == w.orig
    ensures Classify(Arg(args, UserIndex(w.expectsName))) == Passthrough ==> c.args == args
    ensures var k := UserIndex(w.expectsName); var u := Arg(args, k);
      Classify(u) != Passthrough ==>
        && |c.args| == |args|
        && c.args[k] == BridgeFor(u)
        && forall i :: 0 <= i < |c.args| && i != k ==> c.args[i] == Arg(args, i)
  {
    var shape := Split(args, w.expectsName);
    if Classify(shape.userFn) == Passthrough then
      Call(w.orig, args)
    else
      assert Truthy(shape.userFn);
      assert UserIndex(w.expectsName) < |args|;
      var fwd := Assemble(shape, BridgeFor(shape.userFn));
      assert forall i :: UserIndex(w.expectsName) < i < |fwd| ==>
        fwd[i] == fwd[NameSlots(shape) + 1..][i - NameSlots(shape) - 1];
      Call(w.orig, fwd)
  }

  /** The module's own export: `jasmineCo(userFn)` wraps with no description expected. */
  function JasmineCo(userFn: Value): (r: Value)
    ensures r.Wrapper? && r.orig == userFn && !r.expectsName
    ensures Length(r) == Num(0)
  {
    Wrapper(userFn, false)
  }

  /** How the framework calls a function it was given: a function declaring parameters is
      called with a completion callback, any other is called with no arguments. */
  datatype Invocation = WithDone(fn: Value) | Bare(fn: Value)

  function FrameworkInvokes(fn: Value): (inv: Invocation)
    ensures inv.fn == fn
    ensures inv.WithDone? <==> Length(fn).Num? && Length(fn).n > 0
  {
    var len := Length(fn);
    if len.Num? && len.n > 0 then WithDone(fn) else Bare(fn)
  }

  /** The installed `it`, called as `it(description, generatorFn, timeout)`, hands the framework
      `(description, bridge, timeout)`; the bridge reports the generator driver's outcome once. */
  lemma {:induction false} WrappedGeneratorForwarding(orig: Value, desc: Value, gen: Value, timeout: Value,
                                                      thisArg: Value, call: CallOutcome, o: Outcome)
    requires IsGeneratorFn(gen)
    ensures var c := InvokeWrapper(Wrapper(orig, true), [desc, gen, timeout]);
      && c == Call(orig, [desc, Bridge(CoBridge, gen), timeout])
      && FrameworkInvokes(c.args[1]).WithDone?
      && var r := RunBridge(c.args[1], thisArg, World(call, Some(o)));
         |Completions(r)| == 1 && Reported(Completions(r)[0]) == o
  {
    var c := InvokeWrapper(Wrapper(orig, true), [desc, gen, timeout]);
    assert c.args[1] == Bridge(CoBridge, gen);
    assert c.args == [desc, Bridge(CoBridge, gen), timeout];
    CoBridgeReportsDriverOutcome(gen, thisArg, call, o);
  }

  /** A setup hook called as `beforeEach(plainFn, timeout)` hands the framework
      `(bridge, timeout)`, and the framework passes the bridge a completion callback. */
  lemma WrappedPlainForwarding(orig: Value, plain: Value, timeout: Value)
    requires plain.Func? && !plain.generator && plain.arity == 0
    ensures InvokeWrapper(Wrapper(orig, false), [plain, timeout]) == Call(orig, [Bridge(PlainBridge, plain), timeout])
    ensures FrameworkInvokes(Bridge(PlainBridge, plain)).WithDone?
  {
    var c := InvokeWrapper(Wrapper(orig, false), [plain, timeout]);
    assert c.args == [Bridge(PlainBridge, plain), timeout];
  }

  /** A function that declares a completion parameter is forwarded exactly as an
      unwrapped registration call would pass it. */
  lemma SelfManagingPassthrough(w: Value, args: seq<Value>)
    requires w.Wrapper?
    requires var u := Arg(args, UserIndex(w.expectsName)); u.Func? && !u.generator && u.arity >= 1
    ensures InvokeWrapper(w, args) == Call(w.orig, args)
  {
  }

  /** As written: the framework calls the zero-parameter result of `jasmineCo(f)` with no
      arguments, so the wrapper sees no user function and calls `f` directly, with no bridge. */
  lemma DirectEntryAsWritten(f: Value)
    ensures FrameworkInvokes(JasmineCo(f)) == Bare(JasmineCo(f))
    ensures InvokeWrapper(JasmineCo(f), []) == Call(f, [])
  {
  }

  /** The discrepancy: a generator given to `jasmineCo` is merely called, which
      creates a generator object without running its body; no completion is ever driven. */
  lemma DirectEntryGeneratorNotDriven(f: Value)
    requires IsGeneratorFn(f)
    ensures
      && FrameworkInvokes(JasmineCo(f)).Bare?
      && InvokeWrapper(JasmineCo(f), []).target == f
      && InvokeWrapper(JasmineCo(f), []).args == []
  {
  }

  /** The evidently intended direct entry: the bridge for a generator or zero-parameter
      function, and the function itself when it manages its own completion. */
  function JasmineCoFixed(userFn: Value): (fn: Value)
    ensures Classify(userFn) == Passthrough ==> fn == userFn
    ensures Classify(userFn) != Passthrough ==>
      fn.Bridge? && fn.user == userFn && (fn.kind == CoBridge <==> IsGeneratorFn(userFn))
  {
    if Classify(userFn) == Passthrough then userFn else BridgeFor(userFn)
  }

  /** With the intended entry, the framework passes a completion callback to what it is given
      for a generator, and the driver's outcome is reported exactly once. */
  lemma {:induction false} DirectEntryFixedDrivesGenerator(f: Value, thisArg: Value, call: CallOutcome, o: Outcome)
    requires IsGeneratorFn(f)
    ensures FrameworkInvokes(JasmineCoFixed(f)).WithDone?
    ensures var r := RunBridge(JasmineCoFixed(f), thisArg, World(call, Some(o)));
      |Completions(r)| == 1 && Reported(Completions(r)[0]) == o
  {
    assert JasmineCoFixed(f) == Bridge(CoBridge, f);
    CoBridgeReportsDriverOutcome(f, thisArg, call, o);
  }

}
