/** `mix_voice_with_music`: one run of the mixer, from a decoded voice clip
    and a decoded music clip to the mixed clip that is then exported. The
    timeline is fixed by three constants: 1000 ms of silence before the
    voice, 2000 ms after it, and 1500 ms fades at both ends of the music bed.

    The pipeline is modelled as the code does it, and beside it the timeline
    the comment on line 49 describes (`MixVoiceWithMusicIntended`):
    line 51 overlays the voice onto a 1000 ms silent base at position 1000,
    where a length-preserving overlay drops all of it. */
module AudioProcessor {

  import opened Arithmetic
  import opened AudioSegment

  const StartPauseMs: nat := 1000
  const EndPauseMs: nat := 2000
  const FadeDurationMs: nat := 1500

  /** The failure the modelled lines can raise: the loop count divides by the
      length of the music, which is zero for an empty music clip. */
  datatype Error = ZeroDivisionError

  datatype Result<T> = Success(value: T) | Failure(error: Error)

  /** The length the music bed must have: the voice plus both pauses. It always
      leaves room for the two fade windows side by side. */
  function RequiredMusicLength(voiceDuration: nat): (r: nat)
    ensures r == voiceDuration + 3000
    ensures r >= 2 * FadeDurationMs
  {
    voiceDuration + StartPauseMs + EndPauseMs
  }

  /** `required // m + 1`: the least number of copies of an m ms clip that
      is strictly longer than `required`. */
  function NumLoops(required: nat, m: nat): (r: nat)
    requires m > 0
    ensures m * r > required
    ensures m * (r - 1) <= required
  {
    var q := required / m;
    assert m * (q + 1) == m * q + m;
    q + 1
  }

  /** When m divides the required length, one copy fewer would already cover
      it exactly: the loop count is one more than the least covering count. */
  lemma NumLoopsOverLoops(required: nat, m: nat)
    requires m > 0 && required % m == 0
    ensures m * (NumLoops(required, m) - 1) == required
  {
  }

  /** Lines 39-41: the music, repeated `NumLoops` times when it is shorter
      than required. An empty music clip is always shorter than the required
      length, and the loop count then divides by zero. */
  function LoopMusic(music: Clip, required: nat): (r: Result<Clip>)
    ensures r.Failure? <==> |music| == 0 < required
    ensures r.Success? ==> |r.value| >= required
    ensures r.Success? && |music| < required ==> |r.value| > required
    ensures r.Success? && required <= |music| ==> r.value == music
  {
    if |music| < required then
      if |music| == 0 then Failure(ZeroDivisionError)
      else Success(Repeat(music, NumLoops(required, |music|)))
    else
      Success(music)
  }

  /** Lines 39-44: looping then trimming from position 0 gives exactly the
      required length, and sample i is music sample i mod m, in both branches. */
  lemma {:induction false} TrimmedAt(music: Clip, required: nat, i: nat)
    requires |music| > 0 && i < required
    ensures LoopMusic(music, required).Success?
    ensures |Prefix(LoopMusic(music, required).value, required)| == required
    ensures Prefix(LoopMusic(music, required).value, required)[i] == music[i % |music|]
  {
    if |music| < required {
      RepeatAt(music, NumLoops(required, |music|), i);
    } else {
      ModSmall(i, |music|);
    }
  }

  /** Lines 36-47: the background bed, looped, trimmed to the required length
      and faded in and out over 1500 ms. */
  function PrepareBed(music: Clip, voiceDuration: nat): (r: Result<Clip>)
    ensures r.Failure? <==> |music| == 0
    ensures r.Success? ==> |r.value| == RequiredMusicLength(voiceDuration)
  {
    var required := RequiredMusicLength(voiceDuration);
    match LoopMusic(music, required)
    case Failure(e) => Failure(e)
    case Success(looped) =>
      var trimmed := Prefix(looped, required);
      Success(FadeOut(FadeIn(trimmed, FadeDurationMs), FadeDurationMs))
  }

  /** Sample i of the bed is music sample i mod m: faded in over [0, 1500),
      faded out over the last 1500 ms, untouched in between. The two fade
      windows never overlap. */
  lemma {:induction false} BedAt(music: Clip, voiceDuration: nat, i: nat)
    requires |music| > 0 && i < RequiredMusicLength(voiceDuration)
    ensures PrepareBed(music, voiceDuration).Success?
    ensures FadeDurationMs <= RequiredMusicLength(voiceDuration) - FadeDurationMs
    ensures var bed, required, x :=
              PrepareBed(music, voiceDuration).value, RequiredMusicLength(voiceDuration), music[i % |music|];
            && (i < FadeDurationMs ==> bed[i] == Scale(x, i, FadeDurationMs))
            && (FadeDurationMs <= i < required - FadeDurationMs ==> bed[i] == x)
            && (required - FadeDurationMs <= i ==> bed[i] == Scale(x, required - i, FadeDurationMs))
  {
    TrimmedAt(music, RequiredMusicLength(voiceDuration), i);
  }

  /** Lines 50-52 as written: a 1000 ms silent base, the voice overlaid at
      position 1000, then 2000 ms of silence. */
  function VoiceTrack(voice: Clip): (r: Clip)
    ensures |r| == StartPauseMs + EndPauseMs
    ensures forall i :: 0 <= i < |r| ==> r[i] == Silence
  {
    var track := Overlay(Silent(StartPauseMs), voice, StartPauseMs, Unity);
    VoiceOverlayDropsVoice(voice);
    Concat(track, Silent(EndPauseMs))
  }

  /** Line 51: overlaying at the very end of a base keeps the base and drops
      the whole voice, whatever its length. */
  lemma VoiceOverlayDropsVoice(voice: Clip)
    ensures Overlay(Silent(StartPauseMs), voice, StartPauseMs, Unity) == Silent(StartPauseMs)
  {
    var base := Silent(StartPauseMs);
    var track := Overlay(base, voice, StartPauseMs, Unity);
    assert forall i :: 0 <= i < |track| ==> track[i] == base[i];
  }

  /** The voice track built by lines 50-52 is the same for every voice. */
  lemma VoiceTrackIgnoresVoice(voice: Clip, other: Clip)
    ensures VoiceTrack(voice) == VoiceTrack(other) == Silent(StartPauseMs + EndPauseMs)
  {
    var a, b := VoiceTrack(voice), VoiceTrack(other);
    assert forall i :: 0 <= i < |a| ==> a[i] == b[i];
    assert forall i :: 0 <= i < |a| ==> a[i] == Silent(StartPauseMs + EndPauseMs)[i];
  }

  /** Lines 22-55: one run of the mixer as written. The bed is overlaid from
      position 0 onto the voice track with -10 dB on the voice track where they
      overlap; the result has the voice track's length, so only the first
      3000 ms of the bed survive, and the voice does not reach the output. */
  function MixVoiceWithMusic(voice: Clip, music: Clip): (r: Result<Clip>)
    ensures r.Failure? <==> |music| == 0
    ensures r.Success? ==> |r.value| == StartPauseMs + EndPauseMs
    ensures r.Success? ==>
              forall i :: 0 <= i < |r.value| ==> r.value[i] == PrepareBed(music, |voice|).value[i]
  {
    match PrepareBed(music, |voice|)
    case Failure(e) => Failure(e)
    case Success(bed) =>
      var finalTrack := VoiceTrack(voice);
      OverlayOntoSilence(finalTrack, bed, MinusTenDb);
      Success(Overlay(finalTrack, bed, 0, MinusTenDb))
  }

  /** The output is the first 3000 ms of the bed, and depends on the voice
      only through its duration. */
  lemma MixedIsBedPrefix(voice: Clip, other: Clip, music: Clip)
    requires |music| > 0 && |voice| == |other|
    ensures MixVoiceWithMusic(voice, music).value
         == Prefix(PrepareBed(music, |voice|).value, StartPauseMs + EndPauseMs)
         == MixVoiceWithMusic(other, music).value
  {
    var out, bed := MixVoiceWithMusic(voice, music).value, PrepareBed(music, |voice|).value;
    var head := Prefix(bed, StartPauseMs + EndPauseMs);
    assert forall i :: 0 <= i < |out| ==> out[i] == head[i];
  }

  /** A non-empty voice makes the output shorter than the bed: the mixed clip
      is not voice + 3000 ms long, and the bed's fade-out never reaches it
      once the voice is 1500 ms or longer. */
  lemma {:induction false} OutputShorterThanTimeline(voice: Clip, music: Clip)
    requires |music| > 0 && |voice| > 0
    ensures |MixVoiceWithMusic(voice, music).value| < RequiredMusicLength(|voice|)
    ensures |voice| >= FadeDurationMs ==>
              forall i :: FadeDurationMs <= i < StartPauseMs + EndPauseMs ==>
                MixVoiceWithMusic(voice, music).value[i] == music[i % |music|]
  {
    if |voice| >= FadeDurationMs {
      forall i | FadeDurationMs <= i < StartPauseMs + EndPauseMs
        ensures MixVoiceWithMusic(voice, music).value[i] == music[i % |music|]
      {
        BedAt(music, |voice|, i);
      }
    }
  }

  /** An empty voice is no error: the output is the whole 3000 ms bed, faded
      in over its first half and out over its second. */
  lemma SilentVoiceRun(voice: Clip, music: Clip)
    requires |voice| == 0 && |music| > 0
    ensures MixVoiceWithMusic(voice, music) == PrepareBed(music, 0)
  {
    var out, bed := MixVoiceWithMusic(voice, music).value, PrepareBed(music, 0).value;
    assert forall i :: 0 <= i < |out| ==> out[i] == bed[i];
    assert out == bed;
  }

  /** A 3000 ms voice over 2000 ms of music: the bed needs 6000 ms, the music
      is repeated 4 times (3 would be enough), and the output lasts 3000 ms. */
  lemma ShortMusicScenario(voice: Clip, music: Clip)
    requires |voice| == 3000 && |music| == 2000
    ensures RequiredMusicLength(|voice|) == 6000
    ensures NumLoops(6000, 2000) == 4 && 2000 * (NumLoops(6000, 2000) - 1) == 6000
    ensures |LoopMusic(music, 6000).value| == 8000
    ensures |PrepareBed(music, |voice|).value| == 6000
    ensures |MixVoiceWithMusic(voice, music).value| == 3000
  {
    DivModUnique(6000, 2000, 3, 0);
  }

  /** A 10000 ms voice over 20000 ms of music: no looping, a 13000 ms bed
      trimmed from position 0, and an output of 3000 ms. */
  lemma LongMusicScenario(voice: Clip, music: Clip, i: nat)
    requires |voice| == 10000 && |music| == 20000 && FadeDurationMs <= i < 3000
    ensures LoopMusic(music, 13000) == Success(music)
    ensures |PrepareBed(music, |voice|).value| == 13000
    ensures |MixVoiceWithMusic(voice, music).value| == 3000
    ensures MixVoiceWithMusic(voice, music).value[i] == music[i]
  {
    BedAt(music, |voice|, i);
    ModSmall(i, |music|);
  }

  /** The voice track the comment on line 49 describes: the lead silence, the
      voice, then the trail silence, as one concatenation. */
  function IntendedVoiceTrack(voice: Clip): (r: Clip)
    ensures |r| == RequiredMusicLength(|voice|)
    ensures forall i :: 0 <= i < StartPauseMs ==> r[i] == Silence
    ensures forall j :: 0 <= j < |voice| ==> r[StartPauseMs + j] == voice[j]
    ensures forall i :: StartPauseMs + |voice| <= i < |r| ==> r[i] == Silence
  {
    Concat(Concat(Silent(StartPauseMs), voice), Silent(EndPauseMs))
  }

  /** The run with the intended voice track: the output spans the whole
      bed, the voice starts at 1000 ms under -10 dB with the bed added, and
      the pauses hold the bed alone. */
  function MixVoiceWithMusicIntended(voice: Clip, music: Clip): (r: Result<Clip>)
    ensures r.Failure? <==> |music| == 0
    ensures r.Success? ==> |r.value| == RequiredMusicLength(|voice|)
    ensures r.Success? ==> forall j :: 0 <= j < |voice| ==>
              r.value[StartPauseMs + j]
                == Add(MinusTenDb(voice[j]), PrepareBed(music, |voice|).value[StartPauseMs + j])
    ensures r.Success? ==> forall i :: 0 <= i < |r.value| && !(StartPauseMs <= i < StartPauseMs + |voice|) ==>
              r.value[i] == PrepareBed(music, |voice|).value[i]
  {
    match PrepareBed(music, |voice|)
    case Failure(e) => Failure(e)
    case Success(bed) =>
      var finalTrack := IntendedVoiceTrack(voice);
      Success(Overlay(finalTrack, bed, 0, MinusTenDb))
  }

  /** With the intended track, the 3000 ms voice over 2000 ms of music gives a
      6000 ms output, the duration the timeline plans. */
  lemma IntendedScenario(voice: Clip, music: Clip)
    requires |voice| == 3000 && |music| == 2000
    ensures |MixVoiceWithMusicIntended(voice, music).value| == 6000
    ensures |IntendedVoiceTrack(voice)| == |PrepareBed(music, |voice|).value|
  {
  }
}
