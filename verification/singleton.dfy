/** `Singleton<T>`: the same slot discipline as `SingletonComponent<T>`,
    with the static slot named `Current` (here `Registry.holder`).
    Its destroy callback compares against a slot named `Instance`, which
    this class does not declare; `OnDestroyAsWritten` models that guard,
    and `OnDestroy` the evident intent of comparing against `Current`. */
module Singleton {
  import opened Wrappers
  import opened Engine
  import SingletonComponent

  /** `OnAwake`: while a valid component is `Current`, warn and destroy the
      newcomer; otherwise make the newcomer `Current` if it is active. */
  function OnAwake(r: Registry, c: Component): (r': Registry)
    ensures HolderValid(r) ==>
      r'.holder == r.holder && r'.log == r.log + [MultipleSingletonsWarning, DestroyRequested(c.id)]
    ensures !HolderValid(r) ==> r'.log == r.log
    ensures !HolderValid(r) && c.active ==> r'.holder == Some(c)
    ensures !HolderValid(r) && !c.active ==> r'.holder == r.holder
  {
    if HolderValid(r) then
      r.(log := r.log + [MultipleSingletonsWarning, DestroyRequested(c.id)])
    else if c.active then
      r.(holder := Some(c))
    else
      r
  }

  /** `IHotloadManaged.Destroyed`: record `IsActive = (Current == this)`. */
  function Destroyed(r: Registry, c: Component, state: HotloadState): (state': HotloadState)
    ensures IsActiveKey in state'
    ensures state'[IsActiveKey] == BoolBox(Holds(r, c))
    ensures forall k :: k in state && k != IsActiveKey ==> k in state' && state'[k] == state[k]
    ensures state'.Keys == state.Keys + {IsActiveKey}
  {
    state[IsActiveKey := BoolBox(Holds(r, c))]
  }

  /** `IHotloadManaged.Created`: make `c` `Current` iff `IsActive` holds a
      boxed `true`; an absent key or any other value changes nothing. */
  function Created(r: Registry, c: Component, state: HotloadState): (r': Registry)
    ensures r'.log == r.log
    ensures IsTrue(state, IsActiveKey) ==> r'.holder == Some(c)
    ensures !IsTrue(state, IsActiveKey) ==> r' == r
  {
    if IsTrue(state, IsActiveKey) then r.(holder := Some(c)) else r
  }

  /** The destroy callback AS WRITTEN: the guard reads `Instance`, a slot
      this class never assigns, given here as `instance`. `Current` is
      cleared only when that unrelated slot happens to name `c`. */
  function OnDestroyAsWritten(r: Registry, c: Component, instance: Option<nat>): (r': Registry)
    ensures r'.log == r.log
    ensures instance == Some(c.id) ==> r'.holder == None
    ensures instance != Some(c.id) ==> r' == r
  {
    if instance == Some(c.id) then r.(holder := None) else r
  }

  /** The discrepancy: `Instance` is never assigned by this class, so it
      stays null, and destroying the registered component leaves it
      registered as `Current`. */
  lemma AsWrittenLeavesDestroyedCurrent(c: Component)
    ensures OnDestroyAsWritten(Registry(Some(c), []), c, None).holder == Some(c)
  {
  }

  /** The destroy callback AS INTENDED: clear `Current` iff `c` is it. */
  function OnDestroy(r: Registry, c: Component): (r': Registry)
    ensures r'.log == r.log
    ensures Holds(r, c) ==> r'.holder == None
    ensures !Holds(r, c) ==> r' == r
  {
    if Holds(r, c) then r.(holder := None) else r
  }

  /** With the guard corrected, `Singleton<T>` and `SingletonComponent<T>`
      are the same state machine: every callback agrees. */
  lemma SameAsSingletonComponent(r: Registry, c: Component, state: HotloadState)
    ensures OnAwake(r, c) == SingletonComponent.OnAwake(r, c)
    ensures Destroyed(r, c, state) == SingletonComponent.Destroyed(r, c, state)
    ensures Created(r, c, state) == SingletonComponent.Created(r, c, state)
    ensures OnDestroy(r, c) == SingletonComponent.OnDestroy(r, c)
  {
  }

  /** Hot-reload round trip over `Current`. */
  lemma HotloadRoundTrip(before: Registry, after: Registry, c: Component, state: HotloadState)
    ensures Holds(before, c) ==> Created(after, c, Destroyed(before, c, state)).holder == Some(c)
    ensures !Holds(before, c) ==> Created(after, c, Destroyed(before, c, state)) == after
  {
  }
}
