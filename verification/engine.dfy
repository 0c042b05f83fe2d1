/** The engine objects the singleton base classes touch, abstracted:
    components are identities with validity and active flags, the engine
    calls `Destroy()` and `Log.Warning` become recorded events, and the
    hot-reload dictionary is a map from keys to boxed values. */
module Engine {
  import opened Wrappers

  /** A scene component. `id` stands for reference identity, `valid` for
      `IsValid()` and `active` for `Active` at the moment of the callback. */
  datatype Component = Component(id: nat, valid: bool, active: bool)

  /** Observable side effects of a lifecycle callback. */
  datatype Event =
    | MultipleSingletonsWarning   // Log.Warning about a second singleton
    | DestroyRequested(id: nat)   // Destroy() called on a component

  /** The static slot of one singleton type together with the events the
      callbacks emitted so far. */
  datatype Registry = Registry(holder: Option<Component>, log: seq<Event>)

  /** `holder.IsValid()`: the slot is non-null and its component is valid. */
  predicate HolderValid(r: Registry) {
    r.holder.Some? && r.holder.value.valid
  }

  /** `holder == this`: reference equality, i.e. the same identity. */
  predicate Holds(r: Registry, c: Component) {
    r.holder.Some? && r.holder.value.id == c.id
  }

  /** A value stored in the hot-reload dictionary (`object` in the source). */
  datatype Boxed = NullBox | BoolBox(b: bool) | OtherBox(tag: nat)

  type HotloadState = map<string, Boxed>

  const IsActiveKey: string := "IsActive"

  /** `state.GetValueOrDefault(key) is true`: present and a boxed `true`.
      A missing key yields null, which is not `true`. */
  predicate IsTrue(state: HotloadState, key: string) {
    key in state && state[key] == BoolBox(true)
  }
}
