/**
 * The component pool of the Origami sample (Samples/Origami/Origami.cs):
 * per component type a constructor, a FIFO queue of returned instances and
 * a pool size limit, created together by Init.
 *
 * The static class becomes one object; the three concurrent dictionaries
 * are used from one thread and become maps (the constructor dictionary a
 * set of the registered types, since every constructor is `new T()`). The
 * dictionaries are null until Init creates them; `initialized` stands for
 * both the flag and their existence. Component types are named by strings.
 */
module OrigamiPool {
  import opened Wrappers
  import StyleRegistry

  type ComponentType = string

  const ButtonType: ComponentType := "Button"
  const AccordianItemType: ComponentType := "AccordianItem"
  const DefaultPoolSizeLimit := 128

  /** A pooled component; only its Reset hook is modelled, as a count of calls. */
  class Component {
    const kind: ComponentType
    var resets: nat

    constructor(kind: ComponentType)
      ensures this.kind == kind && resets == 0
    {
      this.kind := kind;
      resets := 0;
    }

    method Reset()
      modifies this`resets
      ensures resets == old(resets) + 1
    {
      resets := resets + 1;
    }
  }

  datatype PoolError =
    /** InvalidOperationException: Init called twice. */
    | AlreadyInitialized
    /** InvalidOperationException: Component<T> before Init. */
    | NotInitialized
    /** InvalidOperationException: the type was already registered. */
    | AlreadyRegistered(t: ComponentType)
    /** InvalidOperationException: the type is not registered. */
    | NotRegistered(t: ComponentType)
    /** ArgumentOutOfRangeException: a pool size limit of zero or less. */
    | LimitOutOfRange(size: int)
    /** InvalidOperationException: the queue reached its limit. */
    | PoolExceeded(t: ComponentType)
    /** NullReferenceException: a dictionary used before Init created it. */
    | NullDictionary
    /** KeyNotFoundException from a dictionary indexer. */
    | KeyNotFound(t: ComponentType)

  /** The static state: the flag and the three dictionaries. */
  datatype Pools = Pools(
    initialized: bool,
    queues: map<ComponentType, seq<Component>>,
    limits: map<ComponentType, int>,
    constructors: set<ComponentType>)

  const Uninitialized := Pools(false, map[], map[], {})

  /** The dictionaries always have the same keys, and are empty before Init. */
  predicate Inv(s: Pools) {
    && s.queues.Keys == s.constructors
    && s.limits.Keys == s.constructors
    && (!s.initialized ==> s.constructors == {})
  }

  predicate Registered(s: Pools, t: ComponentType) {
    s.initialized && t in s.constructors
  }

  /** RegisterComponent<T>(poolSizeLimit): an empty queue and the limit for a new type. */
  function RegisterOf(s: Pools, t: ComponentType, limit: int): (r: Result<Pools, PoolError>)
    requires Inv(s)
    ensures r.Failure? <==> !s.initialized || t in s.constructors
    ensures !s.initialized ==> r == Failure(NullDictionary)
    ensures s.initialized && t in s.constructors ==> r == Failure(AlreadyRegistered(t))
    ensures r.Success? ==> Inv(r.value) && r.value.initialized
    ensures r.Success? ==> r.value.constructors == s.constructors + {t}
    ensures r.Success? ==> r.value.queues[t] == [] && r.value.limits[t] == limit
    ensures r.Success? ==> forall u :: u in s.constructors ==>
      r.value.queues[u] == s.queues[u] && r.value.limits[u] == s.limits[u]
  {
    if !s.initialized then Failure(NullDictionary)
    else if t in s.constructors then Failure(AlreadyRegistered(t))
    else Success(s.(constructors := s.constructors + {t},
                    queues := s.queues[t := []],
                    limits := s.limits[t := limit]))
  }

  /** Init: fresh dictionaries holding Button and AccordianItem; a second Init fails. */
  function InitOf(s: Pools): (r: Result<Pools, PoolError>)
    requires Inv(s)
    ensures r.Failure? <==> s.initialized
    ensures r.Failure? ==> r.error == AlreadyInitialized
    ensures r.Success? ==> Inv(r.value) && r.value.initialized
    ensures r.Success? ==> r.value.constructors == {ButtonType, AccordianItemType}
    ensures r.Success? ==> forall t :: t in r.value.constructors ==>
      r.value.queues[t] == [] && r.value.limits[t] == DefaultPoolSizeLimit
  {
    if s.initialized then Failure(AlreadyInitialized)
    else
      var empty := Pools(true, map[], map[], {});
      var withButton := RegisterOf(empty, ButtonType, DefaultPoolSizeLimit).value;
      RegisterOf(withButton, AccordianItemType, DefaultPoolSizeLimit)
  }

  /**
   * Component<T>, the pool part: the front of the queue, or None when the
   * queue is empty and a new instance is to be constructed.
   */
  function TakeOf(s: Pools, t: ComponentType): (r: Result<(Pools, Option<Component>), PoolError>)
    requires Inv(s)
    ensures r.Failure? <==> !Registered(s, t)
    ensures !s.initialized ==> r == Failure(NotInitialized)
    ensures s.initialized && t !in s.constructors ==> r == Failure(NotRegistered(t))
    ensures r.Success? ==> (Inv(r.value.0) && r.value.0.constructors == s.constructors
      && r.value.0.limits == s.limits && r.value.0.initialized)
    ensures r.Success? && s.queues[t] == [] ==> r.value == (s, None)
    ensures r.Success? && s.queues[t] != [] ==>
      r.value.1 == Some(s.queues[t][0]) && [s.queues[t][0]] + r.value.0.queues[t] == s.queues[t]
    ensures r.Success? ==> forall u :: u in s.constructors && u != t ==>
      r.value.0.queues[u] == s.queues[u]
  {
    if !s.initialized then Failure(NotInitialized)
    else if t !in s.queues then Failure(NotRegistered(t))
    else
      var q := s.queues[t];
      if q == [] then Success((s, None))
      else Success((s.(queues := s.queues[t := q[1..]]), Some(q[0])))
  }

  /** SetPoolSizeLimit<T>(size): the size is checked first, then the registration. */
  function SetLimitOf(s: Pools, t: ComponentType, size: int): (r: Result<Pools, PoolError>)
    requires Inv(s)
    ensures r.Failure? <==> size <= 0 || !Registered(s, t)
    ensures size <= 0 ==> r == Failure(LimitOutOfRange(size))
    ensures size > 0 && !s.initialized ==> r == Failure(NullDictionary)
    ensures size > 0 && s.initialized && t !in s.constructors ==> r == Failure(NotRegistered(t))
    ensures r.Success? ==> (Inv(r.value) && t in r.value.limits && r.value.limits[t] == size
      && r.value.queues == s.queues && r.value.constructors == s.constructors
      && r.value.initialized == s.initialized)
    ensures r.Success? ==> forall u :: u in s.limits && u != t ==> r.value.limits[u] == s.limits[u]
  {
    if size <= 0 then Failure(LimitOutOfRange(size))
    else if !s.initialized then Failure(NullDictionary)
    else if t !in s.limits then Failure(NotRegistered(t))
    else Success(s.(limits := s.limits[t := size]))
  }

  /** GetPoolSize<T>: the length of the type's queue. */
  function PoolSize(s: Pools, t: ComponentType): (r: Result<nat, PoolError>)
    requires Inv(s)
    ensures r.Failure? <==> !Registered(s, t)
    ensures !s.initialized ==> r == Failure(NullDictionary)
    ensures s.initialized && t !in s.constructors ==> r == Failure(NotRegistered(t))
    ensures r.Success? ==> r.value == |s.queues[t]|
  {
    if !s.initialized then Failure(NullDictionary)
    else if t !in s.queues then Failure(NotRegistered(t))
    else Success(|s.queues[t]|)
  }

  /**
   * ReturnToPool<T>, the pool part: the component is enqueued, then the
   * call fails when the new length reached the limit; the component stays
   * in the queue in that case.
   */
  function ReturnOf(s: Pools, t: ComponentType, c: Component): (r: (Pools, Result<(), PoolError>))
    requires Inv(s)
    ensures Inv(r.0) && r.0.constructors == s.constructors && r.0.limits == s.limits
      && r.0.initialized == s.initialized
    ensures !s.initialized ==> r == (s, Failure(NullDictionary))
    ensures s.initialized && t !in s.constructors ==> r == (s, Failure(KeyNotFound(t)))
    ensures Registered(s, t) ==> r.0.queues[t] == s.queues[t] + [c]
    ensures Registered(s, t) ==> (r.1.Failure? <==> |s.queues[t]| + 1 >= s.limits[t])
    ensures Registered(s, t) && r.1.Failure? ==> r.1.error == PoolExceeded(t)
    ensures forall u :: u in s.constructors && u != t ==> r.0.queues[u] == s.queues[u]
  {
    if !s.initialized then (s, Failure(NullDictionary))
    else if t !in s.queues then (s, Failure(KeyNotFound(t)))
    else
      var q := s.queues[t] + [c];
      var s' := s.(queues := s.queues[t := q]);
      (s', if |q| >= s.limits[t] then Failure(PoolExceeded(t)) else Success(()))
  }

  /** From the start state the first Init succeeds and every later Init fails. */
  lemma InitOnlyOnce()
    ensures InitOf(Uninitialized).Success?
    ensures forall s :: Inv(s) && s.initialized ==> InitOf(s) == Failure(AlreadyInitialized)
    ensures var s := InitOf(Uninitialized).value;
      PoolSize(s, ButtonType) == Success(0) && PoolSize(s, AccordianItemType) == Success(0)
  {
  }

  /** Pools are first-in first-out: what is returned to an empty queue is what is taken next. */
  lemma {:induction false} ReturnThenTake(s: Pools, t: ComponentType, c: Component)
    requires Inv(s) && Registered(s, t) && s.queues[t] == []
    ensures var s' := ReturnOf(s, t, c).0;
      TakeOf(s', t).Success? && TakeOf(s', t).value == (s, Some(c))
  {
    var s' := ReturnOf(s, t, c).0;
    assert s'.queues[t] == [c];
    assert s'.queues[t := []] == s.queues;
  }

  /** Taking from a registered type lowers its pool size by one, or leaves it when empty. */
  lemma TakeLowersPoolSize(s: Pools, t: ComponentType)
    requires Inv(s) && Registered(s, t)
    ensures var r := TakeOf(s, t).value;
      PoolSize(r.0, t).value == if r.1.Some? then PoolSize(s, t).value - 1 else PoolSize(s, t).value
  {
  }

  /**
   * Returns fail from the moment the queue holds limit - 1 entries: after a
   * successful return the pool size is below the limit, and a return that
   * fails still grows the pool.
   */
  lemma ReturnKeepsBelowLimit(s: Pools, t: ComponentType, c: Component)
    requires Inv(s) && Registered(s, t)
    ensures var r := ReturnOf(s, t, c);
      PoolSize(r.0, t).value == PoolSize(s, t).value + 1
      && (r.1.Success? ==> PoolSize(r.0, t).value < r.0.limits[t])
  {
  }

  /** The static class Origami. */
  class Origami {
    var initialized: bool
    /** The Gui property; null until Init. */
    var gui: StyleRegistry.Paper?
    var componentPool: map<ComponentType, seq<Component>>
    var poolSizeLimits: map<ComponentType, int>
    var constructors: set<ComponentType>

    function State(): Pools
      reads this
    {
      Pools(initialized, componentPool, poolSizeLimits, constructors)
    }

    ghost predicate Valid()
      reads this
    {
      Inv(State())
    }

    /** The static initialisers: not initialized, no dictionaries, no Gui. */
    constructor()
      ensures Valid() && State() == Uninitialized && gui == null
    {
      initialized := false;
      gui := null;
      componentPool := map[];
      poolSizeLimits := map[];
      constructors := {};
    }

    method Init(paper: StyleRegistry.Paper) returns (r: Result<(), PoolError>)
      requires Valid()
      modifies this
      ensures Valid()
      ensures r.Success? <==> InitOf(old(State())).Success?
      ensures r.Success? ==> State() == InitOf(old(State())).value && gui == paper
      ensures r.Failure? ==> r.error == AlreadyInitialized && State() == old(State()) && gui == old(gui)
    {
      if initialized {
        return Failure(AlreadyInitialized);
      }
      initialized := true;
      componentPool := map[];
      constructors := {};
      poolSizeLimits := map[];
      gui := paper;
      var _ := RegisterComponent(ButtonType, DefaultPoolSizeLimit);
      var _ := RegisterComponent(AccordianItemType, DefaultPoolSizeLimit);
      r := Success(());
    }

    method RegisterComponent(t: ComponentType, poolSizeLimit: int) returns (r: Result<(), PoolError>)
      requires Valid()
      modifies this`componentPool, this`poolSizeLimits, this`constructors
      ensures Valid()
      ensures var e := RegisterOf(old(State()), t, poolSizeLimit);
        if e.Success? then r.Success? && State() == e.value
        else r == Failure(e.error) && State() == old(State())
    {
      if !initialized {
        return Failure(NullDictionary);
      }
      if t in constructors {
        return Failure(AlreadyRegistered(t));
      }
      constructors := constructors + {t};
      componentPool := componentPool[t := []];
      poolSizeLimits := poolSizeLimits[t := poolSizeLimit];
      r := Success(());
    }

    /** Component<T>: a pooled instance when there is one, else a new one (Create is not modelled). */
    method GetComponent(t: ComponentType) returns (r: Result<Component, PoolError>)
      requires Valid()
      modifies this`componentPool
      ensures Valid()
      ensures var e := TakeOf(old(State()), t);
        if e.Failure? then r == Failure(e.error) && State() == old(State())
        else (r.Success? && State() == e.value.0 &&
          (if e.value.1.Some? then r.value == e.value.1.value
           else fresh(r.value) && r.value.kind == t && r.value.resets == 0))
    {
      if !initialized {
        return Failure(NotInitialized);
      }
      if t !in componentPool {
        return Failure(NotRegistered(t));
      }
      var queue := componentPool[t];
      if queue != [] {
        componentPool := componentPool[t := queue[1..]];
        return Success(queue[0]);
      }
      var c := new Component(t);
      r := Success(c);
    }

    method SetPoolSizeLimit(t: ComponentType, size: int) returns (r: Result<(), PoolError>)
      requires Valid()
      modifies this`poolSizeLimits
      ensures Valid()
      ensures var e := SetLimitOf(old(State()), t, size);
        if e.Success? then r.Success? && State() == e.value
        else r == Failure(e.error) && State() == old(State())
    {
      if size <= 0 {
        return Failure(LimitOutOfRange(size));
      }
      if !initialized {
        return Failure(NullDictionary);
      }
      if t !in poolSizeLimits {
        return Failure(NotRegistered(t));
      }
      poolSizeLimits := poolSizeLimits[t := size];
      r := Success(());
    }

    method GetPoolSize(t: ComponentType) returns (r: Result<nat, PoolError>)
      requires Valid()
      ensures r == PoolSize(State(), t)
    {
      if !initialized {
        return Failure(NullDictionary);
      }
      if t !in componentPool {
        return Failure(NotRegistered(t));
      }
      r := Success(|componentPool[t]|);
    }

    /** ReturnToPool<T>: the component is reset first, whatever happens next. */
    method ReturnToPool(t: ComponentType, component: Component) returns (r: Result<(), PoolError>)
      requires Valid()
      modifies this`componentPool, component`resets
      ensures Valid()
      ensures component.resets == old(component.resets) + 1
      ensures (State(), r) == ReturnOf(old(State()), t, component)
    {
      component.Reset();
      if !initialized {
        return Failure(NullDictionary);
      }
      if t !in componentPool {
        return Failure(KeyNotFound(t));
      }
      componentPool := componentPool[t := componentPool[t] + [component]];
      if |componentPool[t]| >= poolSizeLimits[t] {
        return Failure(PoolExceeded(t));
      }
      r := Success(());
    }
  }
}
