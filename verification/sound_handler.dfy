/** The `SoundHandler` component: a list of tracked sounds, each a handle
    with the settings it was added with. Dead handles are dropped on every
    update, and the component's disable and destroy callbacks stop the
    sounds whose stop condition asks for it. */
module SoundHandler {
  import opened Audio
  import opened HandlerSettings

  /** One tracked sound (`SoundConfig`). */
  datatype SoundConfig = SoundConfig(handle: SoundHandle, config: SoundSettings)

  /** The component's state: `ActiveSounds`, plus the stop calls it made. */
  datatype Handler = Handler(activeSounds: seq<SoundConfig>, stops: seq<StopCall>)

  /** `AddSound`: track a valid handle by appending it; ignore an invalid one. */
  function AddSound(h: Handler, handle: SoundHandle, settings: SoundSettings): (r: Handler)
    ensures r.stops == h.stops
    ensures !handle.valid ==> r == h
    ensures handle.valid ==>
      && |r.activeSounds| == |h.activeSounds| + 1
      && r.activeSounds[..|h.activeSounds|] == h.activeSounds
      && r.activeSounds[|h.activeSounds|] == SoundConfig(handle, settings)
  {
    if !handle.valid then h
    else h.(activeSounds := h.activeSounds + [SoundConfig(handle, settings)])
  }

  // ---------------------------------------------------------------------
  // Update: dropping dead sounds

  /** The reference definition of what an update keeps: the live entries of
      `s`, in their original order (a stable filter). */
  function Live(s: seq<SoundConfig>): seq<SoundConfig>
  {
    if |s| == 0 then []
    else (if Alive(s[0].handle) then [s[0]] else []) + Live(s[1..])
  }

  /** `List.RemoveAt(i)`: drop the element at `i`, shifting the tail down. */
  function RemoveAt(s: seq<SoundConfig>, i: nat): (r: seq<SoundConfig>)
    requires i < |s|
    ensures |r| == |s| - 1
    ensures forall k :: 0 <= k < i ==> r[k] == s[k]
    ensures forall k :: i <= k < |r| ==> r[k] == s[k + 1]
  {
    s[..i] + s[i + 1..]
  }

  /** One step of the back-to-front loop: with the suffix after `i`
      already filtered, examining entry `i` leaves the suffix from `i`
      filtered. */
  lemma RemoveStep(s: seq<SoundConfig>, i: nat, sounds: seq<SoundConfig>)
    requires i < |s|
    requires sounds == s[..i + 1] + Live(s[i + 1..])
    ensures i < |sounds| && sounds[i] == s[i]
    ensures (if Alive(sounds[i].handle) then sounds else RemoveAt(sounds, i))
         == s[..i] + Live(s[i..])
  {
    assert s[i..][1..] == s[i + 1..];
    assert s[..i + 1] == s[..i] + [s[i]];
    assert sounds[i] == s[i];
  }

  /** `OnUpdate`: walk the list from the back and `RemoveAt` every entry
      whose handle is invalid, stopped or finished. The result is exactly
      the stable filter `Live`. */
  method OnUpdate(h: Handler) returns (r: Handler)
    ensures r.stops == h.stops
    ensures r.activeSounds == Live(h.activeSounds)
    ensures forall k :: 0 <= k < |r.activeSounds| ==> Alive(r.activeSounds[k].handle)
  {
    var s := h.activeSounds;
    var sounds := s;
    var n := |s|;
    assert s[n..] == [] && s[..n] == s;
    while n > 0
      invariant 0 <= n <= |s|
      invariant sounds == s[..n] + Live(s[n..])
    {
      var i := n - 1;
      RemoveStep(s, i, sounds);
      if !Alive(sounds[i].handle) {
        sounds := RemoveAt(sounds, i);
      }
      n := i;
    }
    assert s[..0] == [] && s[0..] == s;
    LiveOnlyAlive(h.activeSounds);
    r := h.(activeSounds := sounds);
  }

  /** Nothing an update keeps is dead. */
  lemma {:induction false} LiveOnlyAlive(s: seq<SoundConfig>)
    ensures forall k :: 0 <= k < |Live(s)| ==> Alive(Live(s)[k].handle)
  {
    if |s| > 0 {
      LiveOnlyAlive(s[1..]);
    }
  }

  /** An update keeps every live entry, as often as it occurs, and drops
      every dead one entirely. */
  lemma {:induction false} LiveCounts(s: seq<SoundConfig>, e: SoundConfig)
    ensures multiset(Live(s))[e] == if Alive(e.handle) then multiset(s)[e] else 0
  {
    if |s| > 0 {
      LiveCounts(s[1..], e);
      assert s == [s[0]] + s[1..];
    }
  }

  /** Filtering commutes with concatenation: the kept entries of a list
      keep their relative order. */
  lemma {:induction false} LiveAppend(a: seq<SoundConfig>, b: seq<SoundConfig>)
    ensures Live(a + b) == Live(a) + Live(b)
  {
    if |a| == 0 {
      assert a + b == b;
    } else {
      assert (a + b)[1..] == a[1..] + b;
      LiveAppend(a[1..], b);
    }
  }

  /** A second update removes nothing. */
  lemma {:induction false} LiveIdempotent(s: seq<SoundConfig>)
    ensures Live(Live(s)) == Live(s)
  {
    if |s| > 0 {
      LiveIdempotent(s[1..]);
      if Alive(s[0].handle) {
        LiveAppend([s[0]], Live(s[1..]));
        assert [s[0]][1..] == [];
        assert Live([s[0]]) == [s[0]];
        assert Live(s) == [s[0]] + Live(s[1..]);
      } else {
        assert Live(s) == Live(s[1..]);
      }
    }
  }

  /** A sound added with a live handle survives the next update, as the
      last tracked entry. */
  lemma AddThenUpdateKeepsLive(h: Handler, handle: SoundHandle, settings: SoundSettings)
    requires Alive(handle)
    ensures Live(AddSound(h, handle, settings).activeSounds)
         == Live(h.activeSounds) + [SoundConfig(handle, settings)]
  {
    LiveAppend(h.activeSounds, [SoundConfig(handle, settings)]);
    assert [SoundConfig(handle, settings)][1..] == [];
  }

  // ---------------------------------------------------------------------
  // Disable and destroy: stopping sounds

  /** Whether the callback for `flag` stops this entry: its handle is valid
      and its stop condition contains the flag. */
  predicate StopsOn(e: SoundConfig, flag: StopCondition) {
    e.handle.valid && HasFlag(e.config.stopOn, flag)
  }

  /** The reference definition of the stop calls the callback for `flag`
      makes over `s`, in list order. */
  function StopCalls(s: seq<SoundConfig>, flag: StopCondition): seq<StopCall>
  {
    if |s| == 0 then []
    else
      var e := s[|s| - 1];
      StopCalls(s[..|s| - 1], flag)
        + (if StopsOn(e, flag) then [StopCall(e.handle.id, e.config.fadeTime)] else [])
  }

  /** The `foreach` loop shared by both callbacks: call `Stop(FadeTime)` on
      each entry that stops on `flag`. */
  method StopMatching(sounds: seq<SoundConfig>, flag: StopCondition) returns (calls: seq<StopCall>)
    ensures calls == StopCalls(sounds, flag)
    ensures forall c :: c in calls <==>
      exists k :: 0 <= k < |sounds| && StopsOn(sounds[k], flag)
                  && c == StopCall(sounds[k].handle.id, sounds[k].config.fadeTime)
  {
    calls := [];
    for i := 0 to |sounds|
      invariant calls == StopCalls(sounds[..i], flag)
    {
      assert sounds[..i + 1][..i] == sounds[..i];
      var e := sounds[i];
      if e.handle.valid && HasFlag(e.config.stopOn, flag) {
        calls := calls + [StopCall(e.handle.id, e.config.fadeTime)];
      }
    }
    assert sounds[..|sounds|] == sounds;
    StopCallsExact(sounds, flag);
  }

  /** A stop call is made iff some entry stops on `flag`, with that entry's
      handle and fade time. */
  lemma {:induction false} StopCallsExact(s: seq<SoundConfig>, flag: StopCondition)
    ensures forall c :: c in StopCalls(s, flag) <==>
      exists k :: 0 <= k < |s| && StopsOn(s[k], flag)
                  && c == StopCall(s[k].handle.id, s[k].config.fadeTime)
  {
    if |s| > 0 {
      var p := s[..|s| - 1];
      StopCallsExact(p, flag);
      forall c | c in StopCalls(s, flag)
        ensures exists k :: 0 <= k < |s| && StopsOn(s[k], flag)
                  && c == StopCall(s[k].handle.id, s[k].config.fadeTime)
      {
        if c in StopCalls(p, flag) {
          var k :| 0 <= k < |p| && StopsOn(p[k], flag)
                  && c == StopCall(p[k].handle.id, p[k].config.fadeTime);
          assert s[k] == p[k];
        } else {
          assert StopsOn(s[|s| - 1], flag);
        }
      }
      forall c | exists k :: 0 <= k < |s| && StopsOn(s[k], flag)
                  && c == StopCall(s[k].handle.id, s[k].config.fadeTime)
        ensures c in StopCalls(s, flag)
      {
        var k :| 0 <= k < |s| && StopsOn(s[k], flag)
                  && c == StopCall(s[k].handle.id, s[k].config.fadeTime);
        if k < |s| - 1 {
          assert p[k] == s[k];
        }
      }
    }
  }

  /** There is one stop call per stopping entry, so a handle tracked twice
      is stopped twice. */
  lemma {:induction false} StopCallsCount(s: seq<SoundConfig>, flag: StopCondition)
    ensures |StopCalls(s, flag)| == |set k | 0 <= k < |s| && StopsOn(s[k], flag)|
  {
    var ks := set k | 0 <= k < |s| && StopsOn(s[k], flag);
    if |s| > 0 {
      var p := s[..|s| - 1];
      StopCallsCount(p, flag);
      var kp := set k | 0 <= k < |p| && StopsOn(p[k], flag);
      if StopsOn(s[|s| - 1], flag) {
        assert ks == kp + {|s| - 1};
      } else {
        assert ks == kp;
      }
    } else {
      assert ks == {};
    }
  }

  /** `OnDisabled`: stop, with its fade time, every valid entry whose stop
      condition contains `Disabled`; the list itself is not modified. */
  method OnDisabled(h: Handler) returns (r: Handler)
    ensures r.activeSounds == h.activeSounds
    ensures r.stops == h.stops + StopCalls(h.activeSounds, StopDisabled)
  {
    var calls := StopMatching(h.activeSounds, StopDisabled);
    r := h.(stops := h.stops + calls);
  }

  /** `OnDestroy`: stop, with its fade time, every valid entry whose stop
      condition contains `Destroy`; the list itself is not modified. */
  method OnDestroy(h: Handler) returns (r: Handler)
    ensures r.activeSounds == h.activeSounds
    ensures r.stops == h.stops + StopCalls(h.activeSounds, StopDestroy)
  {
    var calls := StopMatching(h.activeSounds, StopDestroy);
    r := h.(stops := h.stops + calls);
  }

  /** A valid sound added with default settings is stopped when the
      component is destroyed but not when it is disabled; one added with
      `StopOn = None` is stopped by neither. */
  lemma DefaultStopsOnDestroyOnly(handle: SoundHandle)
    requires handle.valid
    ensures StopCalls([SoundConfig(handle, Default)], StopDestroy) == [StopCall(handle.id, 0.0)]
    ensures StopCalls([SoundConfig(handle, Default)], StopDisabled) == []
    ensures StopCalls([SoundConfig(handle, Default.(stopOn := StopNone))], StopDestroy) == []
    ensures StopCalls([SoundConfig(handle, Default.(stopOn := StopNone))], StopDisabled) == []
  {
    StopConditionFlags();
  }
}
