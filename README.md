# Voice-over-music mixer: timeline model

This project models `mix_voice_with_music`, the one function of the
telegram-voice-mixer bot with algorithmic content. It takes a voice recording
and a background music clip and builds one mixed clip:

1. the bed length is the voice duration plus a 1000 ms lead pause and a 2000 ms
   trail pause;
2. music shorter than that is repeated `required // len(music) + 1` times;
3. the music is cut to exactly that length from position 0;
4. the music gets a 1500 ms fade-in and a 1500 ms fade-out;
5. a voice track is built from 1000 ms of silence, the voice overlaid at
   1000 ms, and 2000 ms of silence;
6. the music is overlaid onto the voice track from position 0 with
   `gain_during_overlay=-10`.

The pydub `AudioSegment` operations used by these steps are written out as
Dafny definitions in module `AudioSegment` (`audio_segment.dfy`). A clip is
one mono 16-bit sample per millisecond, since pydub measures `len()` in
milliseconds, and silence is the sample 0. The operations are:

- `Silent` for `silent`;
- `Concat` for `+`;
- `Repeat` for `*`;
- `Prefix` for `[:n]`;
- `Overlay` for `overlay`. It keeps the base's length, mixes the overlapping
  window with a saturating add, and drops the part of the top clip that runs
  past the base. `gain_during_overlay` scales the base's samples in that
  window, not the top's.
- `FadeIn` and `FadeOut` for `fade_in` and `fade_out`. They scale only the
  first or last f samples, by a linear gain ramp rounded down.

Module `AudioProcessor` (`audio_processor.dfy`) composes these operations the
way lines 22-55 of `audio_processor.py` do. Module `Arithmetic`
(`arithmetic.dfy`) holds division and remainder facts that the proofs use.

Where the code and pydub behave differently from what the names and
comments in `audio_processor.py` suggest, the model follows the code:

- The loop count is `required // m + 1`. When m divides the required length,
  this is one copy more than `ceil(required / m)` (`NumLoopsOverLoops`).
- Nothing rejects empty music before line 40 divides by its length. This is
  modelled as `Failure(ZeroDivisionError)`. An empty voice is not an error
  (`SilentVoiceRun`).
- The comment on line 49 describes a track with the voice between the
  pauses, but the output lasts 3000 ms whatever the voice duration, and it
  holds only music, because line 51 drops the voice (see Findings).
- pydub's `gain_during_overlay` changes the volume of the base segment, which
  at line 55 is the voice track, not the music. The mix saturates at the
  sample range; nothing limits peaks.

## Model

| member | source | states |
|---|---|---|
| AudioSegment.Add | audio_processor.py:55 | the mixed sample is the exact sum when it fits the 16-bit range, and is clamped to the nearer bound otherwise |
| AudioSegment.Scale | audio_processor.py:47 | a gain factor between 0 and 1 keeps a sample between 0 and itself; factor 0 gives silence and factor 1 leaves the sample unchanged |
| AudioSegment.ScaleMonotone | audio_processor.py:47 | a larger gain factor never gives a quieter sample |
| AudioSegment.MinusTenDb | audio_processor.py:55 | the -10 dB gain never amplifies a sample and keeps silence silent |
| AudioSegment.Silent | audio_processor.py:50-52 | `silent(d)` is d ms long, and every sample is silence |
| AudioSegment.Concat | audio_processor.py:52 | `a + b` is `a` followed by `b`, and its length is the sum of theirs |
| AudioSegment.Repeat | audio_processor.py:41 | `c * n` is n times as long as c |
| AudioSegment.RepeatAt | audio_processor.py:41 | sample i of `c * n` is sample `i mod len(c)` of c |
| AudioSegment.Prefix | audio_processor.py:44 | `c[:n]` has length `min(n, len(c))` and agrees with c from position 0 |
| AudioSegment.Overlay | audio_processor.py:51-55 | the overlay has the base's length; inside `[pos, pos + len(top))` each sample is the gained base sample plus the top sample; every other sample is the base's; the part of top past the base is dropped; `gain` is `MinusTenDb` for `gain_during_overlay=-10` and `Unity` when no `gain_during_overlay` is given |
| AudioSegment.OverlayOntoSilence | audio_processor.py:55 | overlaying from position 0 onto silence, with a gain that keeps silence silent, yields the top clip cut to the base's length |
| AudioSegment.FadeIn | audio_processor.py:47 | the length is unchanged, sample i < f is scaled by i/f, and the samples from f on are untouched |
| AudioSegment.FadeOut | audio_processor.py:47 | the length is unchanged, the last f samples are scaled by (len - i)/f, and the earlier samples are untouched |
| AudioSegment.FadeEnvelope | audio_processor.py:47 | the fade-in starts from silence and its gain never falls; the fade-out gain never rises |
| AudioProcessor.RequiredMusicLength | audio_processor.py:23-36 | the required length is exactly voice + 3000 ms, which leaves room for both 1500 ms fade windows |
| AudioProcessor.NumLoops | audio_processor.py:39-40 | `required // m + 1` copies of m ms are strictly longer than `required`, and one copy fewer is not |
| AudioProcessor.NumLoopsOverLoops | audio_processor.py:40 | when m divides the required length, one copy fewer already covers it exactly |
| AudioProcessor.LoopMusic | audio_processor.py:39-41 | the division by zero happens exactly when the music is empty and required > 0; otherwise the looped music covers the required length, and is strictly longer when looping happened; music that is long enough is kept unchanged |
| AudioProcessor.TrimmedAt | audio_processor.py:39-44 | with non-empty music, both branches trim to exactly the required length, and bed sample i is music sample `i mod len(music)` |
| AudioProcessor.PrepareBed | audio_processor.py:36-47 | bed preparation fails exactly for empty music; otherwise the bed is exactly voice + 3000 ms long |
| AudioProcessor.BedAt | audio_processor.py:44-47 | the two fade windows do not overlap; bed sample i is music sample `i mod len(music)`, faded in over [0, 1500), faded out over the last 1500 ms, and untouched in between |
| AudioProcessor.VoiceTrack | audio_processor.py:50-52 | the voice track as written is 3000 ms long and entirely silent, whatever the voice |
| AudioProcessor.VoiceOverlayDropsVoice | audio_processor.py:51 | overlaying the voice at 1000 ms onto 1000 ms of silence gives back that silence |
| AudioProcessor.VoiceTrackIgnoresVoice | audio_processor.py:50-52 | any two voices give the same voice track, which is 3000 ms of silence |
| AudioProcessor.MixVoiceWithMusic | audio_processor.py:22-55 | a run fails exactly for empty music; otherwise the output is 3000 ms long, and each sample equals the bed's sample at the same position |
| AudioProcessor.MixedIsBedPrefix | audio_processor.py:55 | the output is the first 3000 ms of the bed; two voices of equal duration give the same output |
| AudioProcessor.OutputShorterThanTimeline | audio_processor.py:49-55 | for a non-empty voice the output is shorter than voice + 3000 ms; from a 1500 ms voice on, output samples 1500-2999 are the raw music |
| AudioProcessor.SilentVoiceRun | audio_processor.py:29-55 | an empty voice is accepted, and the output is the whole 3000 ms faded bed |
| AudioProcessor.ShortMusicScenario | audio_processor.py:36-55 | 3000 ms of voice over 2000 ms of music: a 6000 ms requirement, 4 loops where one fewer covers it exactly, an 8000 ms loop, a 6000 ms bed and a 3000 ms output |
| AudioProcessor.LongMusicScenario | audio_processor.py:36-55 | 10000 ms of voice over 20000 ms of music: no looping, a 13000 ms bed cut from position 0, and a 3000 ms output whose middle samples are the music's own |
| AudioProcessor.IntendedVoiceTrack | audio_processor.py:49-52 | the corrected voice track is voice + 3000 ms long, with the voice starting at 1000 ms and silence before and after it |
| AudioProcessor.MixVoiceWithMusicIntended | audio_processor.py:49-55 | the corrected run fails exactly for empty music; otherwise the output spans the whole bed; from 1000 ms on it holds the voice at -10 dB plus the bed, and the pauses hold the bed alone |
| AudioProcessor.IntendedScenario | audio_processor.py:49-55 | with the corrected track, 3000 ms of voice over 2000 ms of music gives a 6000 ms output, and the voice track's length matches the bed's |

## Findings

| source | as written | input that shows it | evidently intended | confidence | as-written member | corrected member |
|---|---|---|---|---|---|---|
| audio_processor.py:51 | `silent(1000).overlay(voice, position=1000)`: the overlay keeps its base's 1000 ms, so the voice lands past the end and is dropped; the output is the first 3000 ms of faded music | any voice of 1 ms or more, e.g. 3000 ms of voice over 2000 ms of music gives 3000 ms of music only | lead silence, then the voice, then trail silence (comment on line 49), so the output is voice + 3000 ms with the voice starting at 1000 ms | high (not executed) | AudioProcessor.OutputShorterThanTimeline | AudioProcessor.MixVoiceWithMusicIntended |

## Left out

- Downloading the music (`download_background_music`, lines 9-15). It is an HTTP fetch plus a file write, so it is I/O. The music arrives as an already decoded clip.
- Decoding with ffmpeg (lines 7, 28), MP3 export (line 58) and removing the temporary file (lines 61-62). These are foreign calls and filesystem effects.
- Sample rate, channel count and sample width, and pydub's `_sync` between segments. A clip is one mono 16-bit sample per millisecond.
- AudioSegment.Scale: pydub computes each fade step's gain in floating point and starts the fade-in at -120 dB, a factor of 10^-6. The model uses the exact ratio, which starts at 0. It rounds down, as the mixing primitive does.
- AudioSegment.MinusTenDb: the factor 10^(-1/2) is taken to six decimal places. Only where the gain applies is faithful, not its exact value.
- AudioSegment.FadeIn: requires 0 < f <= the clip length. pydub fails on a zero duration, and the pipeline always fades 1500 ms of a bed at least 3000 ms long. pydub's handling of a fade longer than the clip is not modelled.
- AudioSegment.FadeOut: has the same requirement and the same omission as FadeIn.
- AudioSegment.Overlay: only the single, non-looping overlay (`times=1`) that `audio_processor.py` uses is modelled.
- The other files (`main.py`, `bot.py`, `app.py`, `test_localhost.py`) are Telegram, Flask and HTTP plumbing around this function and are not part of this model.
