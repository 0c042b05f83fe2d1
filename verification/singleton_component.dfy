/** `SingletonComponent<T>`: at most one registered component per type, held
    in the static `Instance` slot (here `Registry.holder`), kept across a hot
    reload through the `IsActive` entry of the reload state. */
module SingletonComponent {
  import opened Wrappers
  import opened Engine

  /** `OnAwake`: while a valid component holds the slot, warn and destroy
      the newcomer; otherwise register the newcomer if it is active. */
  function OnAwake(r: Registry, c: Component): (r': Registry)
    ensures HolderValid(r) ==>
      r'.holder == r.holder && r'.log == r.log + [MultipleSingletonsWarning, DestroyRequested(c.id)]
    ensures !HolderValid(r) ==> r'.log == r.log
    ensures !HolderValid(r) && c.active ==> r'.holder == Some(c)
    ensures !HolderValid(r) && !c.active ==> r'.holder == r.holder
  {
    if HolderValid(r) then
      r.(log := r.log + [MultipleSingletonsWarning, DestroyRequested(c.id)])
    else if c.active then
      r.(holder := Some(c))
    else
      r
  }

  /** `IHotloadManaged.Destroyed`: record whether `c` is the registered
      component under `IsActive`, keeping every other entry. */
  function Destroyed(r: Registry, c: Component, state: HotloadState): (state': HotloadState)
    ensures IsActiveKey in state'
    ensures state'[IsActiveKey] == BoolBox(Holds(r, c))
    ensures forall k :: k in state && k != IsActiveKey ==> k in state' && state'[k] == state[k]
    ensures state'.Keys == state.Keys + {IsActiveKey}
  {
    state[IsActiveKey := BoolBox(Holds(r, c))]
  }

  /** `IHotloadManaged.Created`: register `c` iff the reload state holds a
      boxed `true` under `IsActive`; any other state leaves the slot alone. */
  function Created(r: Registry, c: Component, state: HotloadState): (r': Registry)
    ensures r'.log == r.log
    ensures IsTrue(state, IsActiveKey) ==> r'.holder == Some(c)
    ensures !IsTrue(state, IsActiveKey) ==> r' == r
  {
    if IsTrue(state, IsActiveKey) then r.(holder := Some(c)) else r
  }

  /** `OnDestroy`: clear the slot iff `c` is the registered component. */
  function OnDestroy(r: Registry, c: Component): (r': Registry)
    ensures r'.log == r.log
    ensures Holds(r, c) ==> r'.holder == None
    ensures !Holds(r, c) ==> r' == r
  {
    if Holds(r, c) then r.(holder := None) else r
  }

  /** A run of `OnAwake` callbacks, one per component, in order. */
  function AwakeAll(r: Registry, cs: seq<Component>): Registry
    decreases |cs|
  {
    if |cs| == 0 then r else AwakeAll(OnAwake(r, cs[0]), cs[1..])
  }

  /** A valid registered component is never replaced by later `OnAwake`
      calls: the slot cannot switch from one valid component to another,
      and every newcomer is destroyed. */
  lemma {:induction false} ValidHolderKept(r: Registry, cs: seq<Component>)
    requires HolderValid(r)
    ensures AwakeAll(r, cs).holder == r.holder
    ensures forall k :: 0 <= k < |cs| ==> DestroyRequested(cs[k].id) in AwakeAll(r, cs).log
    decreases |cs|
  {
    if |cs| > 0 {
      var r1 := OnAwake(r, cs[0]);
      ValidHolderKept(r1, cs[1..]);
      LogOnlyGrows(r1, cs[1..]);
      assert DestroyRequested(cs[0].id) in r1.log;
      forall k | 1 <= k < |cs|
        ensures DestroyRequested(cs[k].id) in AwakeAll(r, cs).log
      {
        assert cs[k] == cs[1..][k - 1];
      }
    }
  }

  /** The event log only grows over `OnAwake` calls. */
  lemma {:induction false} LogOnlyGrows(r: Registry, cs: seq<Component>)
    ensures r.log <= AwakeAll(r, cs).log
    decreases |cs|
  {
    if |cs| > 0 {
      LogOnlyGrows(OnAwake(r, cs[0]), cs[1..]);
    }
  }

  /** Hot-reload round trip: saving the state of `c` and creating `c` again
      from it registers `c` iff it was the registered component, and
      otherwise leaves the new registry as it was. */
  lemma HotloadRoundTrip(before: Registry, after: Registry, c: Component, state: HotloadState)
    ensures Holds(before, c) ==> Created(after, c, Destroyed(before, c, state)).holder == Some(c)
    ensures !Holds(before, c) ==> Created(after, c, Destroyed(before, c, state)) == after
  {
  }
}
