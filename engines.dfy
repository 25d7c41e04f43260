/**
 * Transition engine resolution (router/transitions/index.js): `toEngine` turns a
 * user-supplied transition value into an engine, `pickEngine` chooses which value
 * applies to a navigation.
 */
module Engines {
  import opened Wrappers

  type FnId = nat
  type ObjId = nat
  type FactoryId = nat

  /** A transition value, as far as `toEngine` inspects it. */
  datatype TransitionValue =
    | Falsy
      /** `typeof value === "function"`, whether or not it also has a `run` method. */
    | Function(f: FnId, hasRun: bool)
      /** An object; `hasRun` is `typeof value.run === "function"`, `engine` a string `engine` field. */
    | Object(obj: ObjId, hasRun: bool, engine: Option<string>)
      /** Any other truthy value: a non-empty string, a non-zero number, `true`. */
    | OtherTruthy

  /** The engine objects `toEngine` can return. */
  datatype Engine =
    | Noop
      /** `{ name: "fn", run(el, phase, _ctx) { return Promise.resolve(value(el, phase)); } }` */
    | FnWrapper(f: FnId)
      /** The user's engine object, unchanged. */
    | Given(obj: ObjId)
      /** What `factory(spec)` returns. */
    | Built(factory: FactoryId, spec: ObjId)

  function Truthy(v: TransitionValue): bool {
    !v.Falsy?
  }

  /** `toEngine(value, registry)`. */
  function ToEngine(value: TransitionValue, registry: map<string, FactoryId>): (e: Engine)
    ensures value.Falsy? || value.OtherTruthy? ==> e == Noop
    ensures value.Function? ==> e == FnWrapper(value.f)
    ensures value.Object? && value.hasRun ==> e == Given(value.obj)
    ensures value.Object? && !value.hasRun && value.engine.Some? && value.engine.value in registry ==>
      e == Built(registry[value.engine.value], value.obj)
    ensures e.Noop? <==>
      value.Falsy? || value.OtherTruthy?
      || (value.Object? && !value.hasRun && (value.engine.None? || value.engine.value !in registry))
  {
    match value
    case Falsy => Noop
    case Function(f, _) => FnWrapper(f)
    case Object(obj, hasRun, engine) =>
      if hasRun then Given(obj)
      else if engine.Some? then
        if engine.value in registry then Built(registry[engine.value], obj) else Noop
      else Noop
    case OtherTruthy => Noop
  }

  /** `pickEngine({ routerDefault, routeMeta, navStateSpec, registry })`. */
  function PickEngine(routerDefault: TransitionValue, routeMeta: TransitionValue, navStateSpec: TransitionValue,
                      registry: map<string, FactoryId>): (e: Engine)
    ensures Truthy(navStateSpec) ==> e == ToEngine(navStateSpec, registry)
    ensures !Truthy(navStateSpec) && Truthy(routeMeta) ==> e == ToEngine(routeMeta, registry)
    ensures !Truthy(navStateSpec) && !Truthy(routeMeta) ==> e == ToEngine(routerDefault, registry)
  {
    if Truthy(navStateSpec) then ToEngine(navStateSpec, registry)
    else if Truthy(routeMeta) then ToEngine(routeMeta, registry)
    else ToEngine(routerDefault, registry)
  }

  /** The engine's `name`, where `toEngine` fixes it. */
  function Name(e: Engine): Option<string> {
    match e
    case FnWrapper(_) => Some("fn")
    case _ => None
  }

  datatype Phase = Out | In
  /** The call `engine.run(el, phase, ctx)` makes into user code. */
  datatype RunCall =
    | NoCall
    | CallFn(f: FnId, el: ObjId, phase: Phase)
    | CallRun(obj: ObjId, el: ObjId, phase: Phase, ctx: nat)
    | CallBuilt(factory: FactoryId, spec: ObjId, el: ObjId, phase: Phase, ctx: nat)

  /** What running engine `e` on `el` calls: the noop engine calls nothing. */
  function RunOf(e: Engine, el: ObjId, phase: Phase, ctx: nat): RunCall {
    match e
    case Noop => NoCall
    case FnWrapper(f) => CallFn(f, el, phase)
    case Given(obj) => CallRun(obj, el, phase, ctx)
    case Built(factory, spec) => CallBuilt(factory, spec, el, phase, ctx)
  }

  /** A function is wrapped even when it also carries a `run` method: the function test comes first. */
  lemma FunctionBeforeRun(f: FnId, registry: map<string, FactoryId>)
    ensures ToEngine(Function(f, true), registry) == FnWrapper(f)
    ensures Name(ToEngine(Function(f, true), registry)) == Some("fn")
  {
  }

  /** The wrapper calls the user's function with the element and phase only, whatever the context. */
  lemma WrapperIgnoresCtx(f: FnId, hasRun: bool, registry: map<string, FactoryId>, el: ObjId, phase: Phase,
                          c1: nat, c2: nat)
    ensures RunOf(ToEngine(Function(f, hasRun), registry), el, phase, c1)
         == RunOf(ToEngine(Function(f, hasRun), registry), el, phase, c2)
         == CallFn(f, el, phase)
  {
  }

  /** A truthy navigation-state spec decides alone: the route's and the router's values do not matter. */
  lemma NavStateWins(d1: TransitionValue, d2: TransitionValue, m1: TransitionValue, m2: TransitionValue,
                     n: TransitionValue, registry: map<string, FactoryId>)
    requires Truthy(n)
    ensures PickEngine(d1, m1, n, registry) == PickEngine(d2, m2, n, registry)
  {
  }

  /** Without a navigation-state spec, a truthy route value decides over the router default. */
  lemma RouteMetaBeatsDefault(d1: TransitionValue, d2: TransitionValue, m: TransitionValue, n: TransitionValue,
                              registry: map<string, FactoryId>)
    requires !Truthy(n) && Truthy(m)
    ensures PickEngine(d1, m, n, registry) == PickEngine(d2, m, n, registry)
  {
  }

  /** An engine name missing from the registry falls back to the noop engine. */
  lemma UnknownEngineIsNoop(obj: ObjId, name: string, registry: map<string, FactoryId>)
    requires name !in registry
    ensures ToEngine(Object(obj, false, Some(name)), registry) == Noop
  {
  }
}
