/** The JavaScript values the adapter inspects, and the few questions it asks of them:
    truthiness, the `length` property, the generator tag and a callable `then`. */
module Values {

  /** The two completion-callback functions the wrapper can synthesize. */
  datatype BridgeKind = CoBridge | PlainBridge

  /** A JavaScript value, abstracted to what the adapter can observe.
      `Func` is a user-written function: `generator` is the tag the generator test reads,
      `arity` its declared parameter count, `thenable` whether it carries a callable `then`.
      `Wrapper` is the zero-parameter function returned by the wrapping step and
      `Bridge` the one-parameter `function(done)` it hands to the framework. */
  datatype Value =
    | Undefined
    | Null
    | Bool(b: bool)
    | Num(n: int)
    | Str(s: string)
    | Obj(id: nat, thenable: bool)
    | Func(id: nat, generator: bool, arity: nat, thenable: bool)
    | Wrapper(orig: Value, expectsName: bool)
    | Bridge(kind: BridgeKind, user: Value)

  /** JavaScript truthiness (the numbers modelled are integers, so NaN does not arise). */
  predicate Truthy(v: Value) {
    match v
    case Undefined => false
    case Null => false
    case Bool(b) => b
    case Num(n) => n != 0
    case Str(s) => |s| > 0
    case _ => true
  }

  /** Reading the `length` property of a truthy value; a value without one yields `undefined`. */
  function Length(v: Value): Value {
    match v
    case Str(s) => Num(|s|)
    case Func(_, _, arity, _) => Num(arity)
    case Wrapper(_, _) => Num(0)
    case Bridge(_, _) => Num(1)
    case _ => Undefined
  }

  /** The generator-function test: only a user-written generator function passes it. */
  predicate IsGeneratorFn(v: Value) {
    v.Func? && v.generator
  }

  /** `result && typeof result.then === 'function'` */
  predicate HasCallableThen(v: Value) {
    Truthy(v) && ((v.Obj? && v.thenable) || (v.Func? && v.thenable))
  }

}
