/** The override registry: the global registration surface, the originals captured from it,
    the configurable list of names to intercept and the installed flag, with install,
    uninstall, isInstalled and setOverrideMethods as pure state transitions. */
module Registry {

  import opened Wrappers
  import opened Values
  import opened Classifier
  import opened Bridges
  import opened Wrapping

  /** Names intercepted when no list has been configured (`xit` is deliberately absent). */
  const DEFAULT_METHODS: seq<string> := ["afterAll", "afterEach", "beforeAll", "beforeEach", "it", "fit"]

  /** `globals` is the global surface (an absent key reads as `undefined`), `originals` the
      captured implementations, `overrides` the configured list (`undefined` until set) and
      `installed` the flag, which is `undefined` until the first install or uninstall. */
  datatype State = State(globals: map<string, Value>, originals: map<string, Value>,
                         overrides: Option<seq<string>>, installed: Option<bool>)

  /** The state when the module is loaded. */
  function Init(globals: map<string, Value>): State {
    State(globals, map[], None, None)
  }

  /** Property read on a plain object: `undefined` when absent. */
  function Lookup(m: map<string, Value>, k: string): Value {
    if k in m then m[k] else Undefined
  }

  /** `overrideMethods || DEFAULT_METHODS`: any configured array, even an empty one, is used. */
  function ActiveNames(s: State): seq<string> {
    if s.overrides.Some? then s.overrides.value else DEFAULT_METHODS
  }

  /** A name the next coify step would replace: its global binding is truthy and no truthy
      original is recorded for it. */
  predicate Replaceable(s: State, fname: string) {
    Truthy(Lookup(s.globals, fname)) && !Truthy(Lookup(s.originals, fname))
  }

  /** Intercept one name: record its current binding and replace it with a wrapper;
      skip it when the binding is missing or falsy or an original is already recorded. */
  function CoifyJasmineFn(s: State, fname: string): (t: State)
    ensures !Replaceable(t, fname)
    ensures t.overrides == s.overrides && t.installed == s.installed
    ensures forall k :: k != fname ==> Lookup(t.globals, k) == Lookup(s.globals, k) && (k in t.globals <==> k in s.globals)
    ensures forall k :: k != fname ==> Lookup(t.originals, k) == Lookup(s.originals, k) && (k in t.originals <==> k in s.originals)
    ensures !Replaceable(s, fname) ==> t == s
    ensures Replaceable(s, fname) ==>
      && fname in t.globals && fname in t.originals
      && t.originals[fname] == s.globals[fname]
      && t.globals[fname] == Wrapper(s.globals[fname], ExpectsName(fname))
  {
    if !Replaceable(s, fname) then s
    else
      var origFn := s.globals[fname];
      s.(originals := s.originals[fname := origFn],
         globals := s.globals[fname := Wrapper(origFn, ExpectsName(fname))])
  }

  /** The `forEach` over the active names, in order. */
  function CoifyAll(s: State, names: seq<string>): (r: State)
    ensures r.overrides == s.overrides && r.installed == s.installed
    ensures forall n :: n in names ==> !Replaceable(r, n)
    ensures forall k :: k !in names ==>
      && (k in r.globals <==> k in s.globals) && Lookup(r.globals, k) == Lookup(s.globals, k)
      && (k in r.originals <==> k in s.originals) && Lookup(r.originals, k) == Lookup(s.originals, k)
    decreases |names|
  {
    if names == [] then s else CoifyAll(CoifyJasmineFn(s, names[0]), names[1..])
  }

  /** Reference definition of one install pass: the names it replaces, and the
      bindings and originals it writes for them. */
  function ToRecord(s: State, names: seq<string>): set<string> {
    set n | n in names && Replaceable(s, n)
  }

  function WrapMap(s: State, names: seq<string>): map<string, Value> {
    map n | n in ToRecord(s, names) :: Wrapper(Lookup(s.globals, n), ExpectsName(n))
  }

  function RecordMap(s: State, names: seq<string>): map<string, Value> {
    map n | n in ToRecord(s, names) :: Lookup(s.globals, n)
  }

  /** The names one pass replaces are its first name, if replaceable, and those the rest of
      the pass replaces after the first step. */
  lemma ToRecordStep(s: State, names: seq<string>)
    requires names != []
    ensures ToRecord(s, names) == ToRecord(CoifyJasmineFn(s, names[0]), names[1..]) + ToRecord(s, [names[0]])
  {
    var n := names[0];
    var t := CoifyJasmineFn(s, n);
    forall k
      ensures k in ToRecord(s, names) <==> k in ToRecord(t, names[1..]) + ToRecord(s, [n])
    {
      assert k in names <==> k == n || k in names[1..] by {
        assert names == [n] + names[1..];
      }
    }
  }

  /** One key of `CoifyStepReference`. */
  lemma CoifyStepAt(s: State, names: seq<string>, k: string)
    requires names != []
    ensures var t := CoifyJasmineFn(s, names[0]);
      var lg, rg := t.globals + WrapMap(t, names[1..]), s.globals + WrapMap(s, names);
      var lo, ro := t.originals + RecordMap(t, names[1..]), s.originals + RecordMap(s, names);
      && (k in lg <==> k in rg) && (k in lg ==> lg[k] == rg[k])
      && (k in lo <==> k in ro) && (k in lo ==> lo[k] == ro[k])
  {
    var n := names[0];
    var t := CoifyJasmineFn(s, n);
    ToRecordStep(s, names);
    if k == n {
      assert !Replaceable(t, k);
      assert k !in ToRecord(t, names[1..]);
      if Replaceable(s, k) {
        assert k in ToRecord(s, names);
      } else {
        assert k !in ToRecord(s, names);
      }
    } else {
      assert k in ToRecord(t, names[1..]) <==> k in ToRecord(s, names);
      assert Lookup(t.globals, k) == Lookup(s.globals, k);
    }
  }

  /** Maps that agree on every key are equal. */
  lemma MapsAgree(a: map<string, Value>, b: map<string, Value>)
    requires forall k :: (k in a <==> k in b) && (k in a ==> a[k] == b[k])
    ensures a == b
  {
  }

  /** One coify step followed by a pass over the rest writes what a pass over the whole list writes. */
  lemma CoifyStepReference(s: State, names: seq<string>)
    requires names != []
    ensures var t := CoifyJasmineFn(s, names[0]);
      && t.globals + WrapMap(t, names[1..]) == s.globals + WrapMap(s, names)
      && t.originals + RecordMap(t, names[1..]) == s.originals + RecordMap(s, names)
  {
    var t := CoifyJasmineFn(s, names[0]);
    var lg, rg := t.globals + WrapMap(t, names[1..]), s.globals + WrapMap(s, names);
    var lo, ro := t.originals + RecordMap(t, names[1..]), s.originals + RecordMap(s, names);
    forall k
      ensures (k in lg <==> k in rg) && (k in lg ==> lg[k] == rg[k])
      ensures (k in lo <==> k in ro) && (k in lo ==> lo[k] == ro[k])
    {
      CoifyStepAt(s, names, k);
    }
    MapsAgree(lg, rg);
    MapsAgree(lo, ro);
  }

  /** Running the coify steps one after another does exactly what the reference says. */
  lemma {:induction false} CoifyAllReference(s: State, names: seq<string>)
    ensures CoifyAll(s, names).overrides == s.overrides
    ensures CoifyAll(s, names).installed == s.installed
    ensures CoifyAll(s, names).globals == s.globals + WrapMap(s, names)
    ensures CoifyAll(s, names).originals == s.originals + RecordMap(s, names)
    decreases |names|
  {
    if names == [] {
      assert WrapMap(s, names) == map[];
      assert RecordMap(s, names) == map[];
    } else {
      CoifyAllReference(CoifyJasmineFn(s, names[0]), names[1..]);
      CoifyStepReference(s, names);
    }
  }

  /** `install()`: each active name whose binding is truthy and not yet recorded has its binding
      captured and replaced by a wrapper; every other binding and original is kept. */
  function Install(s: State): (r: State)
    ensures r.overrides == s.overrides
    ensures r.installed == Some(true)
    ensures forall k :: k in ActiveNames(s) && Replaceable(s, k) ==>
      && k in r.globals && r.globals[k] == Wrapper(Lookup(s.globals, k), ExpectsName(k))
      && k in r.originals && r.originals[k] == Lookup(s.globals, k)
    ensures forall k :: !(k in ActiveNames(s) && Replaceable(s, k)) ==>
      && (k in r.globals <==> k in s.globals) && Lookup(r.globals, k) == Lookup(s.globals, k)
      && (k in r.originals <==> k in s.originals) && Lookup(r.originals, k) == Lookup(s.originals, k)
  {
    CoifyAllCharacterized(s, ActiveNames(s));
    CoifyAll(s, ActiveNames(s)).(installed := Some(true))
  }

  /** One name of a pass, read off the reference. */
  lemma CoifyAllAt(s: State, names: seq<string>, k: string)
    ensures var r := CoifyAll(s, names);
      && (k in names && Replaceable(s, k) ==>
            && k in r.globals && r.globals[k] == Wrapper(Lookup(s.globals, k), ExpectsName(k))
            && k in r.originals && r.originals[k] == Lookup(s.globals, k))
      && (!(k in names && Replaceable(s, k)) ==>
            && (k in r.globals <==> k in s.globals) && Lookup(r.globals, k) == Lookup(s.globals, k)
            && (k in r.originals <==> k in s.originals) && Lookup(r.originals, k) == Lookup(s.originals, k))
  {
    CoifyAllReference(s, names);
    assert k in ToRecord(s, names) <==> k in names && Replaceable(s, k);
  }

  /** The reference, name by name. */
  lemma CoifyAllCharacterized(s: State, names: seq<string>)
    ensures var r := CoifyAll(s, names);
      && (forall k :: k in names && Replaceable(s, k) ==>
            && k in r.globals && r.globals[k] == Wrapper(Lookup(s.globals, k), ExpectsName(k))
            && k in r.originals && r.originals[k] == Lookup(s.globals, k))
      && (forall k :: !(k in names && Replaceable(s, k)) ==>
            && (k in r.globals <==> k in s.globals) && Lookup(r.globals, k) == Lookup(s.globals, k)
            && (k in r.originals <==> k in s.originals) && Lookup(r.originals, k) == Lookup(s.originals, k))
  {
    forall k {
      CoifyAllAt(s, names, k);
    }
  }

  /** `uninstall()`: every captured original is written back, the record is emptied and the
      flag cleared; with nothing recorded the global surface is untouched. */
  function Uninstall(s: State): (r: State)
    ensures r.originals == map[]
    ensures r.installed == Some(false)
    ensures r.overrides == s.overrides
    ensures forall k :: k in s.originals ==> k in r.globals && r.globals[k] == s.originals[k]
    ensures forall k :: k !in s.originals ==> (k in r.globals <==> k in s.globals)
    ensures forall k :: k !in s.originals && k in s.globals ==> r.globals[k] == s.globals[k]
  {
    s.(globals := s.globals + s.originals, originals := map[], installed := Some(false))
  }

  /** `isInstalled()`: whenever some binding is overridden, the flag reports it. */
  function IsInstalled(s: State): (r: Option<bool>)
    ensures Valid(s) && s.originals != map[] ==> r == Some(true)
  {
    s.installed
  }

  /** `setOverrideMethods(methods)`: an array (modelled as `Some`) becomes the list, anything
      else restores the default list; nothing else changes. */
  function SetOverrideMethods(s: State, methods: Option<seq<string>>): (r: State)
    ensures r.globals == s.globals && r.originals == s.originals && r.installed == s.installed
    ensures methods.Some? ==> ActiveNames(r) == methods.value
    ensures methods.None? ==> ActiveNames(r) == DEFAULT_METHODS
  {
    s.(overrides := Some(if methods.Some? then methods.value else DEFAULT_METHODS))
  }

  /** The flag is `undefined` at load time, `true` after install, `false` after uninstall,
      and configuring the list does not touch it. */
  lemma InstalledFlagLifecycle(g: map<string, Value>, s: State, methods: Option<seq<string>>)
    ensures IsInstalled(Init(g)) == None
    ensures IsInstalled(Install(s)) == Some(true)
    ensures IsInstalled(Uninstall(s)) == Some(false)
    ensures IsInstalled(SetOverrideMethods(s, methods)) == IsInstalled(s)
  {
  }

  /** The registry invariant: every recorded original is truthy and its name is currently bound
      to the wrapper around it, and something is recorded only while installed. */
  predicate Valid(s: State) {
    && (forall k :: k in s.originals ==>
          Truthy(s.originals[k]) && k in s.globals && s.globals[k] == Wrapper(s.originals[k], ExpectsName(k)))
    && (s.originals != map[] ==> s.installed == Some(true))
  }

  lemma {:induction false} OperationsPreserveValid(g: map<string, Value>, s: State, methods: Option<seq<string>>)
    requires Valid(s)
    ensures Valid(Init(g))
    ensures Valid(Install(s))
    ensures Valid(Uninstall(s))
    ensures Valid(SetOverrideMethods(s, methods))
  {
    var r := Install(s);
    forall k | k in r.originals
      ensures Truthy(r.originals[k]) && k in r.globals && r.globals[k] == Wrapper(r.originals[k], ExpectsName(k))
    {
      if !(k in ActiveNames(s) && Replaceable(s, k)) {
        assert k in s.originals;
        assert r.originals[k] == Lookup(r.originals, k);
      }
    }
  }

  /** Install is idempotent: a second install, with no uninstall between, changes nothing. */
  lemma {:induction false} InstallIdempotent(s: State)
    ensures Install(Install(s)) == Install(s)
  {
    var r := Install(s);
    var r2 := Install(r);
    forall k
      ensures !(k in ActiveNames(r) && Replaceable(r, k))
    {
      if k in ActiveNames(s) && Replaceable(s, k) {
        assert Lookup(r.originals, k) == Lookup(s.globals, k);
      }
    }
    forall k
      ensures (k in r2.globals <==> k in r.globals) && (k in r2.globals ==> r2.globals[k] == r.globals[k])
      ensures (k in r2.originals <==> k in r.originals) && (k in r2.originals ==> r2.originals[k] == r.originals[k])
    {
      assert Lookup(r2.globals, k) == Lookup(r.globals, k);
      assert Lookup(r2.originals, k) == Lookup(r.originals, k);
    }
    MapsAgree(r2.globals, r.globals);
    MapsAgree(r2.originals, r.originals);
  }

  /** Install touches only the active names: any other binding and original stays as it was,
      and so does an active name that is not replaceable. */
  lemma InstallTouchesOnlyActiveNames(s: State, k: string)
    requires k !in ActiveNames(s) || !Replaceable(s, k)
    ensures k in Install(s).globals <==> k in s.globals
    ensures Lookup(Install(s).globals, k) == Lookup(s.globals, k)
    ensures k in Install(s).originals <==> k in s.originals
    ensures Lookup(Install(s).originals, k) == Lookup(s.originals, k)
  {
  }

  /** Install replaces each active, replaceable name with a wrapper around its binding, a value
      different from the binding, and describes the name as expecting a description exactly
      for `it`, `fit` and `xit`. */
  lemma InstallWrapsReplaceableNames(s: State, k: string)
    requires k in ActiveNames(s) && Replaceable(s, k)
    ensures k in s.globals && k in Install(s).globals && k in Install(s).originals
    ensures Install(s).originals[k] == s.globals[k]
    ensures Install(s).globals[k] == Wrapper(s.globals[k], k in ["it", "fit", "xit"])
    ensures Install(s).globals[k] != s.globals[k]
  {
  }

  /** Uninstall after install is the same as uninstall alone: install leaves nothing behind. */
  lemma {:induction false} UninstallUndoesInstall(s: State)
    requires Valid(s)
    ensures Uninstall(Install(s)) == Uninstall(s)
  {
    var r := Install(s);
    var lhs := Uninstall(r).globals;
    var rhs := Uninstall(s).globals;
    forall k
      ensures (k in lhs <==> k in rhs) && (k in lhs ==> lhs[k] == rhs[k])
    {
      if k in ActiveNames(s) && Replaceable(s, k) {
        assert k !in s.originals;
        assert k in s.globals;
      } else {
        assert Lookup(r.globals, k) == Lookup(s.globals, k);
        assert Lookup(r.originals, k) == Lookup(s.originals, k);
      }
    }
    MapsAgree(lhs, rhs);
  }

  /** Exact restoration: starting from an empty record, install then uninstall gives back
      the very bindings present before the install. */
  lemma {:induction false} InstallThenUninstallRestores(s: State)
    requires s.originals == map[]
    ensures Uninstall(Install(s)).globals == s.globals
  {
    UninstallUndoesInstall(s);
    assert s.globals + s.originals == s.globals;
  }

  /** A configured list limits install to its names: every other binding is kept. */
  lemma LimitedOverrideList(s: State, names: seq<string>, k: string)
    requires k !in names
    ensures Lookup(Install(SetOverrideMethods(s, Some(names))).globals, k) == Lookup(s.globals, k)
  {
  }

  /** Installing with a custom list, resetting the list and installing again ends with every
      default name wrapped exactly once around its original binding. */
  lemma {:induction false} ResetThenReinstallCoversDefaults(s: State, names: seq<string>)
    requires s.originals == map[]
    requires forall n :: n in DEFAULT_METHODS ==> Truthy(Lookup(s.globals, n))
    ensures var t := Install(SetOverrideMethods(Install(SetOverrideMethods(s, Some(names))), None));
      forall n :: n in DEFAULT_METHODS ==>
        && n in t.globals && n in t.originals
        && t.originals[n] == s.globals[n]
        && t.globals[n] == Wrapper(s.globals[n], ExpectsName(n))
  {
    var s1 := SetOverrideMethods(s, Some(names));
    var r1 := Install(s1);
    var s2 := SetOverrideMethods(r1, None);
    var t := Install(s2);
    forall n | n in DEFAULT_METHODS
      ensures n in t.globals && n in t.originals
      ensures t.originals[n] == s.globals[n]
      ensures t.globals[n] == Wrapper(s.globals[n], ExpectsName(n))
    {
      assert Replaceable(s1, n);
      if n in names {
        assert !Replaceable(s2, n);
        assert Lookup(t.globals, n) == Lookup(r1.globals, n);
        assert Lookup(t.originals, n) == Lookup(r1.originals, n);
      } else {
        assert Lookup(r1.globals, n) == Lookup(s.globals, n);
        assert Replaceable(s2, n);
      }
    }
  }

  /** After install, `it(description, generatorFn, timeout)` reaches the captured `it` as
      `(description, bridge, timeout)`. */
  lemma InstalledItForwards(s: State, desc: Value, gen: Value, timeout: Value)
    requires "it" in ActiveNames(s) && Replaceable(s, "it")
    requires IsGeneratorFn(gen)
    ensures InvokeWrapper(Install(s).globals["it"], [desc, gen, timeout])
         == Call(s.globals["it"], [desc, Bridge(CoBridge, gen), timeout])
  {
    InstallWrapsReplaceableNames(s, "it");
    var w := Install(s).globals["it"];
    assert w == Wrapper(s.globals["it"], true);
    WrappedGeneratorForwarding(s.globals["it"], desc, gen, timeout, Undefined, Returned(Undefined), Succeeded(Undefined));
  }

  /** After install, `beforeEach(plainFn, timeout)` reaches the captured `beforeEach` as
      `(bridge, timeout)`. */
  lemma InstalledBeforeEachForwards(s: State, plain: Value, timeout: Value)
    requires "beforeEach" in ActiveNames(s) && Replaceable(s, "beforeEach")
    requires plain.Func? && !plain.generator && plain.arity == 0
    ensures InvokeWrapper(Install(s).globals["beforeEach"], [plain, timeout])
         == Call(s.globals["beforeEach"], [Bridge(PlainBridge, plain), timeout])
  {
    assert !ExpectsName("beforeEach") by {
      assert "beforeEach"[0] == 'b';
    }
    InstallWrapsReplaceableNames(s, "beforeEach");
    var w := Install(s).globals["beforeEach"];
    assert w == Wrapper(s.globals["beforeEach"], false);
    WrappedPlainForwarding(s.globals["beforeEach"], plain, timeout);
  }

}
