/** The `SoundSettings` struct declared beside the sound handler component:
    optional pitch and volume overrides, a fade time, a mixer name, a follow
    flag and the `StopCondition` flags saying when a tracked sound stops. */
module HandlerSettings {
  import opened Wrappers
  import opened Audio

  /** `StopCondition` is a `[Flags]` enum over a 32-bit integer; any bit
      pattern is a legal value, combinations included. */
  type StopCondition = bv32

  const StopNone: StopCondition := 0
  const StopDestroy: StopCondition := 1
  const StopDisabled: StopCondition := 2

  /** `Enum.HasFlag`: every bit of `flag` is set in `value`. */
  predicate HasFlag(value: StopCondition, flag: StopCondition) {
    value & flag == flag
  }

  datatype SoundSettings = SoundSettings(
    pitch: Option<real>,
    volume: Option<real>,
    fadeTime: real,
    mixer: string,
    follow: bool,
    stopOn: StopCondition
  )

  /** The field initialisers of the parameterless constructor. */
  const Default: SoundSettings :=
    SoundSettings(None, None, 0.0, "", true, StopDestroy)

  /** `SetHandleSettings`: apply each override that is present, leaving
      every other handle field as it was. */
  function SetHandleSettings(s: SoundSettings, h: SoundHandle, findMixer: MixerLookup): (r: SoundHandle)
    ensures SameStatus(r, h)
    ensures !s.follow ==> !r.followParent
    ensures s.follow ==> r.followParent == h.followParent
    ensures s.pitch.Some? ==> r.pitch == s.pitch.value
    ensures s.pitch.None? ==> r.pitch == h.pitch
    ensures s.volume.Some? ==> r.volume == s.volume.value
    ensures s.volume.None? ==> r.volume == h.volume
    ensures s.mixer != "" ==> r.targetMixer == findMixer(s.mixer)
    ensures s.mixer == "" ==> r.targetMixer == h.targetMixer
  {
    var h1 := if !s.follow then h.(followParent := false) else h;
    var h2 := if s.pitch.Some? then h1.(pitch := s.pitch.value) else h1;
    var h3 := if s.volume.Some? then h2.(volume := s.volume.value) else h2;
    if s.mixer != "" then h3.(targetMixer := findMixer(s.mixer)) else h3
  }

  /** A default settings value stops its sound when the component is
      destroyed and never when it is disabled; `None` stops on neither,
      and the two flags together stop on both. */
  lemma StopConditionFlags()
    ensures Default.stopOn == StopDestroy
    ensures HasFlag(Default.stopOn, StopDestroy) && !HasFlag(Default.stopOn, StopDisabled)
    ensures !HasFlag(StopNone, StopDestroy) && !HasFlag(StopNone, StopDisabled)
    ensures HasFlag(StopDestroy | StopDisabled, StopDestroy)
    ensures HasFlag(StopDestroy | StopDisabled, StopDisabled)
  {
  }

  /** Default settings carry no override, so applying them changes nothing. */
  lemma DefaultLeavesHandle(h: SoundHandle, findMixer: MixerLookup)
    ensures SetHandleSettings(Default, h, findMixer) == h
  {
  }

  /** Applying the same settings twice is the same as applying them once. */
  lemma SetHandleSettingsIdempotent(s: SoundSettings, h: SoundHandle, findMixer: MixerLookup)
    ensures SetHandleSettings(s, SetHandleSettings(s, h, findMixer), findMixer)
         == SetHandleSettings(s, h, findMixer)
  {
  }
}
