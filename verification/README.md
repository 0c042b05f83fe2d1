# SmallFishUtils bookkeeping, modelled in Dafny

SmallFishUtils is a set of helper components for a game-engine scripting
layer. Almost all of it forwards calls to the engine. Three pieces keep
state of their own, and this project models those three with engine objects
reduced to plain values:

1. **Singleton registry.** `SingletonComponent<T>` and `Singleton<T>` keep one
   static slot per type, named `Instance` in the first and `Current` in the second. `OnAwake`
   registers an active component only when no valid holder exists, and
   otherwise warns and destroys the newcomer. `OnDestroy` clears the slot
   only for its holder. A hot-reload hook saves `IsActive = (slot == this)`
   into a state dictionary, and `Created` re-registers the component when
   that entry is a boxed `true`. Components are identities with `valid` and
   `active` flags (`Engine.Component`). The slot and the events the
   callbacks emit form `Engine.Registry`. The dictionary is a
   `map<string, Boxed>`.
2. **Sound-lifetime tracker.** `SoundHandler` keeps `ActiveSounds`, a list of
   (handle, settings) entries. `AddSound` appends an entry for a valid
   handle. `OnUpdate` removes the dead entries with a back-to-front
   `RemoveAt` loop, which the model proves equal to a stable filter
   (`SoundHandler.Live`). `OnDisabled` and `OnDestroy` stop the valid
   entries whose `StopOn` flags contain `Disabled` or `Destroy`. A handle is
   a record of status flags and overridable properties (`Audio.SoundHandle`).
   Stop calls are logged as `(handle id, fade time)` pairs.
3. **Override application.** Two revisions of the `SoundSettings` struct
   merge optional overrides into a handle: `SetHandleSettings` next to the
   handler and the stand-alone `SetHandle`. Pitch and volume are copied when
   present. The mixer is looked up only for a non-empty name. `FollowParent`
   is only ever forced to false. The mixer lookup is a function parameter.
   `SetHandle` is `readonly`. Settings are immutable values here, so the call
   cannot change them.

Each source file is its own module. `SingletonComponent` models
`Components/SingletonComponent.cs` and `Singleton` models
`Components/Singleton.cs`. `HandlerSettings` and `SoundHandler` model
`Components/SoundHandler.cs`, and `StandaloneSettings` models
`SoundSettings.cs`. `Wrappers`, `Audio` and `Engine` hold the shared
abstractions of engine types.

The destroy guard of `Singleton<T>` compares against `Instance`, a slot that
class does not declare. The model keeps the guard as written,
`Singleton.OnDestroyAsWritten`, beside the evident intent,
`Singleton.OnDestroy`, which compares against `Current`. See "Findings".

## Model

| member | source | states |
|---|---|---|
| HandlerSettings.SetHandleSettings | Libraries/SmallFishUtils/Code/Components/SoundHandler.cs:48-61 | `FollowParent` is forced false iff `Follow` is false and kept otherwise. Pitch and volume take the override iff it is present and are unchanged otherwise. The target mixer is the lookup of `Mixer` iff the name is non-empty. Identity and status flags are untouched. |
| HandlerSettings.StopConditionFlags | Libraries/SmallFishUtils/Code/Components/SoundHandler.cs:36-44 | Under `HasFlag`, default `StopOn` is `Destroy`, which contains `Destroy` but not `Disabled`. `None` contains neither flag. `Destroy \| Disabled` contains both. |
| HandlerSettings.DefaultLeavesHandle | Libraries/SmallFishUtils/Code/Components/SoundHandler.cs:8-61 | Settings built by the parameterless constructor leave any handle exactly as it was. |
| HandlerSettings.SetHandleSettingsIdempotent | Libraries/SmallFishUtils/Code/Components/SoundHandler.cs:48-61 | Applying the same settings a second time changes nothing more. |
| SoundHandler.AddSound | Libraries/SmallFishUtils/Code/Components/SoundHandler.cs:80-86 | An invalid handle leaves the component unchanged. A valid one adds exactly one entry, at the end, carrying that handle and those settings. Earlier entries and the stop log stay as they were. |
| SoundHandler.OnUpdate | Libraries/SmallFishUtils/Code/Components/SoundHandler.cs:88-96 | The back-to-front `RemoveAt` loop leaves exactly the stable filter `Live` of the list. No remaining entry is invalid, stopped or finished. |
| SoundHandler.LiveOnlyAlive | Libraries/SmallFishUtils/Code/Components/SoundHandler.cs:90-95 | Every entry kept by an update has a valid, unstopped, unfinished handle. |
| SoundHandler.LiveCounts | Libraries/SmallFishUtils/Code/Components/SoundHandler.cs:90-94 | An update keeps each live entry as many times as it occurs and keeps no dead entry. |
| SoundHandler.LiveAppend | Libraries/SmallFishUtils/Code/Components/SoundHandler.cs:90-94 | Filtering a concatenation gives the concatenation of the filtered parts, so kept entries keep their relative order. |
| SoundHandler.LiveIdempotent | Libraries/SmallFishUtils/Code/Components/SoundHandler.cs:88-96 | A second update with no handle changes in between removes nothing. |
| SoundHandler.AddThenUpdateKeepsLive | Libraries/SmallFishUtils/Code/Components/SoundHandler.cs:80-96 | A sound added with a live handle survives the next update as the last entry, after the survivors of the earlier list. |
| SoundHandler.StopMatching | Libraries/SmallFishUtils/Code/Components/SoundHandler.cs:100-104 | The `foreach` loop makes one stop call per valid entry whose `StopOn` has the flag, in list order. Each call carries that entry's handle and `FadeTime`. Every call it makes comes from such an entry. |
| SoundHandler.StopCallsExact | Libraries/SmallFishUtils/Code/Components/SoundHandler.cs:100-113 | A stop call `(id, fade)` is made iff some entry has a valid handle `id`, `fade` as its fade time and the flag in its `StopOn`. |
| SoundHandler.StopCallsCount | Libraries/SmallFishUtils/Code/Components/SoundHandler.cs:100-104 | The number of stop calls equals the number of matching entries, so a handle tracked twice is stopped twice. |
| SoundHandler.OnDisabled | Libraries/SmallFishUtils/Code/Components/SoundHandler.cs:98-105 | The handle of each valid entry whose `StopOn` contains `Disabled` is stopped with that entry's fade time. `ActiveSounds` is not modified. |
| SoundHandler.OnDestroy | Libraries/SmallFishUtils/Code/Components/SoundHandler.cs:107-114 | The handle of each valid entry whose `StopOn` contains `Destroy` is stopped with that entry's fade time. `ActiveSounds` is not modified. |
| SoundHandler.DefaultStopsOnDestroyOnly | Libraries/SmallFishUtils/Code/Components/SoundHandler.cs:21-43 | A valid sound with default settings is stopped on destroy with fade time 0 and is not stopped on disable. With `StopOn = None` it is stopped on neither. |
| StandaloneSettings.SetHandle | Libraries/SmallFishUtils/Code/SoundSettings.cs:27-40 | `Follow = false` forces `FollowParent` false, and `Follow = true` keeps it. Pitch and volume are set iff their override is present. The mixer is set to the lookup result iff `Mixer` is non-empty. Identity and status are untouched. |
| StandaloneSettings.SetHandleChangesOnlyOverridden | Libraries/SmallFishUtils/Code/SoundSettings.cs:27-40 | A handle field differs after `SetHandle` only if the matching override asked for the change. |
| StandaloneSettings.DefaultLeavesHandle | Libraries/SmallFishUtils/Code/SoundSettings.cs:8-40 | Default settings (follow, no pitch, no volume, empty mixer) leave the handle unchanged. |
| StandaloneSettings.AgreesWithHandlerRevision | Libraries/SmallFishUtils/Code/SoundSettings.cs:27-40 | On the fields both revisions share, `SetHandle` acts exactly like the handler's `SetHandleSettings`, whatever that revision's fade time and stop condition are. |
| SingletonComponent.OnAwake | Libraries/SmallFishUtils/Code/Components/SingletonComponent.cs:8-21 | With a valid `Instance`, the slot is unchanged and a warning plus a destroy of the newcomer are logged. Otherwise nothing is logged: an active newcomer becomes `Instance` and an inactive one leaves the slot unchanged. |
| SingletonComponent.Destroyed | Libraries/SmallFishUtils/Code/Components/SingletonComponent.cs:23-26 | The state gains `IsActive = (Instance == this)`. Every other entry is kept. |
| SingletonComponent.Created | Libraries/SmallFishUtils/Code/Components/SingletonComponent.cs:28-34 | A boxed `true` under `IsActive` makes the component `Instance`. A missing key or any other value leaves the registry unchanged. |
| SingletonComponent.OnDestroy | Libraries/SmallFishUtils/Code/Components/SingletonComponent.cs:36-42 | `Instance` is cleared iff the destroyed component is `Instance`. Otherwise nothing changes. |
| SingletonComponent.ValidHolderKept | Libraries/SmallFishUtils/Code/Components/SingletonComponent.cs:8-21 | Over any run of later `OnAwake` calls, a valid `Instance` is never replaced, and every newcomer gets a destroy request. |
| SingletonComponent.HotloadRoundTrip | Libraries/SmallFishUtils/Code/Components/SingletonComponent.cs:23-34 | Saving then recreating re-registers the component iff it was `Instance`. Otherwise the new registry is unchanged. |
| Singleton.OnAwake | Libraries/SmallFishUtils/Code/Components/Singleton.cs:8-21 | With a valid `Current`, the slot is unchanged and a warning plus a destroy of the newcomer are logged. Otherwise an active newcomer becomes `Current` and an inactive one leaves the slot unchanged. |
| Singleton.Destroyed | Libraries/SmallFishUtils/Code/Components/Singleton.cs:23-26 | The state gains `IsActive = (Current == this)`. Every other entry is kept. |
| Singleton.Created | Libraries/SmallFishUtils/Code/Components/Singleton.cs:28-34 | `Current` becomes the component iff `IsActive` holds a boxed `true`. Absent or non-`true` state changes nothing. |
| Singleton.OnDestroyAsWritten | Libraries/SmallFishUtils/Code/Components/Singleton.cs:36-42 | As written, `Current` is cleared only when the undeclared `Instance` slot names the destroyed component. Otherwise nothing changes. |
| Singleton.AsWrittenLeavesDestroyedCurrent | Libraries/SmallFishUtils/Code/Components/Singleton.cs:38 | With the foreign `Instance` never assigned, destroying the registered component leaves it as `Current`. |
| Singleton.OnDestroy | Libraries/SmallFishUtils/Code/Components/Singleton.cs:36-42 | As intended, `Current` is cleared iff the destroyed component is `Current`. Otherwise nothing changes. |
| Singleton.SameAsSingletonComponent | Libraries/SmallFishUtils/Code/Components/Singleton.cs:8-42 | With the guard corrected, every callback of `Singleton<T>` agrees with `SingletonComponent<T>`. |
| Singleton.HotloadRoundTrip | Libraries/SmallFishUtils/Code/Components/Singleton.cs:23-34 | Saving then recreating makes the component `Current` iff it was `Current`. Otherwise the new registry is unchanged. |

## Findings

| source | as written | input that shows it | evidently intended | confidence | as-written member | corrected member |
|---|---|---|---|---|---|---|
| Libraries/SmallFishUtils/Code/Components/Singleton.cs:38 | `OnDestroy` guards with `Instance == this`, but `Singleton<T>` declares only `Current` and never assigns an `Instance` | Component `c` is `Current`, then `c` is destroyed: the guard does not see `c`, so `Current` still refers to the destroyed `c` | `Current == this`, clearing `Current` for its holder | low, not executed; the name may not even resolve, in which case the file does not compile | Singleton.OnDestroyAsWritten, Singleton.AsWrittenLeavesDestroyedCurrent | Singleton.OnDestroy |

## Left out

- The two `SoundEmitter` components (`Components/SoundEmitter.cs`, `SoundEmitter.cs`) are left out. They consist of engine audio calls plus a floating-point volume curve over engine time. The three-field `SoundSettings` struct at the top of `Components/SoundEmitter.cs` has no behaviour and goes with them.
- The extension files (`GameObjectExtensions.cs` twice, `Extensions/Vector3Extensions.cs`) are left out. They are networking spawn, ownership, RPC broadcast and resource lookup, all forwarded to engine calls that are not visible.
- `Log.Warning` and `TypeLibrary` become a single warning event with no message text.
- `Destroy()` becomes a `DestroyRequested` event. The engine's later teardown of that component is not modelled.
- `Mixer.FindMixerByName` is a function parameter, `string -> Option<Mixer>`. Its implementation is engine code.
- `SoundHandle.Stop` is logged as a call and nothing more. What it does to `IsStopped` is engine code, so the model leaves the handle's status as it was. The next `OnUpdate` sees whatever status the next state carries; a sound just stopped by `OnDisabled` or `OnDestroy` is kept until its handle reports stopped.
- Audio playback, positions and timing are not modelled.
- Pitch, volume and fade time are `real`. They are only ever copied, so `float` rounding never comes into play.
- `SoundConfig.Name` is not modelled. It is a display key for the editor.
- A null handle passed to `SetHandleSettings` or `SetHandle` is not modelled. Such a call throws `NullReferenceException` when at least one override applies, and returns normally when none does.
- A null `Mixer` string is treated like `""`. `string.IsNullOrEmpty` handles the two alike.
- The cast `(T)this` in `OnAwake` and `Created` is assumed to succeed, i.e. the concrete component type is `T`. The constraint `where T : SingletonComponent<T>` (or `Singleton<T>`) also admits `class A : SingletonComponent<B>`; for such a class the cast throws `InvalidCastException`, the slot stays unchanged and the exception reaches the engine. The model always registers the component.
- Engine validity changing on its own (a holder going invalid between callbacks) is not a step of the model. It is carried by the `valid` flag in whatever state a callback receives.
