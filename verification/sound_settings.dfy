/** The stand-alone `SoundSettings` struct: the override record applied to a
    freshly played handle by the `PlaySound` extension helpers. It has no
    fade time and no stop condition, and its `SetHandle` is `readonly`: the
    settings are passed by value here, so they cannot change. */
module StandaloneSettings {
  import opened Wrappers
  import opened Audio
  import HandlerSettings

  datatype SoundSettings = SoundSettings(
    follow: bool,
    pitch: Option<real>,
    volume: Option<real>,
    mixer: string
  )

  /** The field initialisers of the parameterless constructor. */
  const Default: SoundSettings := SoundSettings(true, None, None, "")

  /** `SetHandle`: apply each override that is present. */
  function SetHandle(s: SoundSettings, h: SoundHandle, findMixer: MixerLookup): (r: SoundHandle)
    ensures SameStatus(r, h)
    ensures !s.follow ==> !r.followParent
    ensures s.follow ==> r.followParent == h.followParent
    ensures s.pitch.Some? ==> r.pitch == s.pitch.value
    ensures s.pitch.None? ==> r.pitch == h.pitch
    ensures s.volume.Some? ==> r.volume == s.volume.value
    ensures s.volume.None? ==> r.volume == h.volume
    ensures s.mixer != "" ==> r.targetMixer == findMixer(s.mixer)
    ensures s.mixer == "" ==> r.targetMixer == h.targetMixer
  {
    var h1 := if !s.follow then h.(followParent := false) else h;
    var h2 := if s.pitch.Some? then h1.(pitch := s.pitch.value) else h1;
    var h3 := if s.volume.Some? then h2.(volume := s.volume.value) else h2;
    if s.mixer != "" then h3.(targetMixer := findMixer(s.mixer)) else h3
  }

  /** A handle field differs after `SetHandle` only if its override asked
      for it: follow switched off, a pitch or volume present, a mixer named. */
  lemma SetHandleChangesOnlyOverridden(s: SoundSettings, h: SoundHandle, findMixer: MixerLookup)
    ensures SetHandle(s, h, findMixer).followParent != h.followParent ==> !s.follow && h.followParent
    ensures SetHandle(s, h, findMixer).pitch != h.pitch ==> s.pitch.Some?
    ensures SetHandle(s, h, findMixer).volume != h.volume ==> s.volume.Some?
    ensures SetHandle(s, h, findMixer).targetMixer != h.targetMixer ==> s.mixer != ""
  {
  }

  /** Default settings carry no override, so applying them changes nothing. */
  lemma DefaultLeavesHandle(h: SoundHandle, findMixer: MixerLookup)
    ensures SetHandle(Default, h, findMixer) == h
  {
  }

  /** The two revisions of the struct agree: on the fields they share,
      `SetHandle` does exactly what the handler's `SetHandleSettings` does,
      whatever that revision's fade time and stop condition are. */
  lemma AgreesWithHandlerRevision(s: HandlerSettings.SoundSettings, h: SoundHandle, findMixer: MixerLookup)
    ensures SetHandle(SoundSettings(s.follow, s.pitch, s.volume, s.mixer), h, findMixer)
         == HandlerSettings.SetHandleSettings(s, h, findMixer)
  {
  }
}
