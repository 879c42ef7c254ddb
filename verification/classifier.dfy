/** Deciding what a registration call carries: which argument is the user function,
    whether a description precedes it, what trails it, and what kind of function it is. */
module Classifier {

  import opened Wrappers
  import opened Values

  /** The closed three-way classification of a user function. */
  datatype Kind = Generator | Plain | Passthrough

  /** Generator check first; then a truthy value whose `length` is falsy (zero or absent);
      everything else, including a missing function, is forwarded untouched. */
  function Classify(userFn: Value): (k: Kind)
    ensures k == Generator ==> userFn.Func? && userFn.generator
    ensures k == Plain ==> Truthy(userFn) && !IsGeneratorFn(userFn)
    ensures !Truthy(userFn) ==> k == Passthrough
    ensures IsGeneratorFn(userFn) ==> k == Generator
    ensures Truthy(userFn) && !IsGeneratorFn(userFn) && (Length(userFn) == Num(0) || !Length(userFn).Num?) ==> k == Plain
    ensures !IsGeneratorFn(userFn) && Length(userFn).Num? && Length(userFn).n != 0 ==> k == Passthrough
  {
    if IsGeneratorFn(userFn) then Generator
    else if Truthy(userFn) && !Truthy(Length(userFn)) then Plain
    else Passthrough
  }

  /** On user-written functions the classification reads only the generator tag and the arity,
      and the generator tag wins whatever the arity. */
  lemma ClassifyFunction(id: nat, generator: bool, arity: nat, thenable: bool)
    ensures var k := Classify(Func(id, generator, arity, thenable));
      && (k == Generator <==> generator)
      && (k == Plain <==> !generator && arity == 0)
      && (k == Passthrough <==> !generator && arity >= 1)
  {
  }

  /** The bridge a non-passthrough kind is given. */
  function BridgeKindOf(k: Kind): BridgeKind
    requires k != Passthrough
  {
    if k == Generator then CoBridge else PlainBridge
  }

  /** Names whose registration call carries a description before the user function. */
  const EXPECTS_NAME: seq<string> := ["it", "fit", "xit"]

  predicate ExpectsName(fname: string) {
    fname in EXPECTS_NAME
  }

  /** `arguments[i]`: `undefined` past the end. */
  function Arg(args: seq<Value>, i: nat): Value {
    if i < |args| then args[i] else Undefined
  }

  /** Position of the user function among the arguments. */
  function UserIndex(expectsName: bool): nat {
    if expectsName then 1 else 0
  }

  /** One registration call taken apart: the description (when the name expects one),
      the user function and the trailing arguments. */
  datatype CallShape = CallShape(name: Option<Value>, userFn: Value, rest: seq<Value>)

  function Split(args: seq<Value>, expectsName: bool): (c: CallShape)
    ensures c.name.Some? <==> expectsName
    ensures expectsName ==> c.name.value == Arg(args, 0)
    ensures c.userFn == Arg(args, UserIndex(expectsName))
    ensures |args| > UserIndex(expectsName) ==> |c.rest| == |args| - UserIndex(expectsName) - 1
    ensures |args| <= UserIndex(expectsName) ==> c.rest == []
    ensures forall i :: 0 <= i < |c.rest| ==> c.rest[i] == args[UserIndex(expectsName) + 1 + i]
  {
    var k := UserIndex(expectsName);
    CallShape(if expectsName then Some(Arg(args, 0)) else None,
              Arg(args, k),
              if k + 1 <= |args| then args[k + 1..] else [])
  }

  /** Number of leading slots the description occupies. */
  function NameSlots(c: CallShape): nat {
    if c.name.Some? then 1 else 0
  }

  /** `[name?] ++ [fn] ++ rest` */
  function Assemble(c: CallShape, fn: Value): (r: seq<Value>)
    ensures |r| == NameSlots(c) + 1 + |c.rest|
    ensures c.name.Some? ==> r[0] == c.name.value
    ensures r[NameSlots(c)] == fn
    ensures r[NameSlots(c) + 1..] == c.rest
  {
    (if c.name.Some? then [c.name.value] else []) + [fn] + c.rest
  }

  /** Re-assembling a split call with its own user function gives the call back. */
  lemma SplitAssembleRoundTrip(args: seq<Value>, expectsName: bool)
    requires |args| > UserIndex(expectsName)
    ensures Assemble(Split(args, expectsName), args[UserIndex(expectsName)]) == args
  {
    var c := Split(args, expectsName);
    var r := Assemble(c, args[UserIndex(expectsName)]);
    forall i | 0 <= i < |r|
      ensures r[i] == args[i]
    {
      if i > UserIndex(expectsName) {
        assert r[i] == r[NameSlots(c) + 1..][i - NameSlots(c) - 1];
      }
    }
  }

  /** Splitting an assembled call recovers the description, the function and the rest. */
  lemma AssembleSplitRoundTrip(c: CallShape, fn: Value)
    ensures Split(Assemble(c, fn), c.name.Some?) == c.(userFn := fn)
  {
    var r := Assemble(c, fn);
    var d := Split(r, c.name.Some?);
    assert d.rest == r[NameSlots(c) + 1..];
  }

}
