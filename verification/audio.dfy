/** The engine's audio objects, abstracted to the fields the library reads
    and writes. Playback, fading and timing are not modelled: a handle only
    carries its status flags and the properties a settings value may
    override. Pitch and volume are copied by the library, never computed,
    so `real` stands in for the engine's `float`. */
module Audio {
  import opened Wrappers

  /** An engine audio mixer, known only by identity. */
  datatype Mixer = Mixer(id: nat)

  /** Looks a mixer up by name; the engine may answer null (`None`). */
  type MixerLookup = string -> Option<Mixer>

  /** A playing sound. `id` stands for the object's reference identity. */
  datatype SoundHandle = SoundHandle(
    id: nat,
    valid: bool,
    stopped: bool,
    finished: bool,
    followParent: bool,
    pitch: real,
    volume: real,
    targetMixer: Option<Mixer>
  )

  /** A handle still worth tracking: valid, not stopped, not finished. */
  predicate Alive(h: SoundHandle) {
    h.valid && !h.stopped && !h.finished
  }

  /** One call of `SoundHandle.Stop(fadeTime)`, recorded by handle identity. */
  datatype StopCall = StopCall(handle: nat, fadeTime: real)

  /** The handle fields that are not audio properties (identity and status)
      are the same in `a` and `b`. */
  predicate SameStatus(a: SoundHandle, b: SoundHandle) {
    a.id == b.id && a.valid == b.valid && a.stopped == b.stopped && a.finished == b.finished
  }
}
