/** The pydub `AudioSegment` operations that `mix_voice_with_music` relies on,
    stated as definitions. A clip is one mono sample per millisecond, because
    `len()` of a segment is its duration in milliseconds; a sample is a signed
    16-bit value, and silence is the sample 0. Every operation returns a new
    clip: segments are immutable values. */
module AudioSegment {

  import opened Arithmetic

  type Sample = x: int | -32768 <= x <= 32767

  const MinSample: int := -32768
  const MaxSample: int := 32767
  const Silence: Sample := 0

  type Clip = seq<Sample>

  /** Sum of two samples, saturated to the sample range, as the mixing
      primitive under `overlay` does. */
  function Add(x: Sample, y: Sample): (r: Sample)
    ensures MinSample <= x + y <= MaxSample ==> r == x + y
    ensures x + y > MaxSample ==> r == MaxSample
    ensures x + y < MinSample ==> r == MinSample
  {
    if x + y > MaxSample then MaxSample
    else if x + y < MinSample then MinSample
    else x + y
  }

  /** x * num / den, rounded down; with num <= den the result lies between 0 and x. */
  lemma ScaleBetween(x: int, num: nat, den: nat)
    requires 0 < den && num <= den
    ensures 0 <= x ==> 0 <= x * num / den <= x
    ensures x < 0 ==> x <= x * num / den <= 0
  {
    MulDivCancel(x, den);
    if 0 <= x {
      MulLe(0, num, x);
      MulLe(num, den, x);
      DivMonotone(0, x * num, den);
      DivMonotone(x * num, x * den, den);
    } else {
      MulLeNeg(0, num, x);
      MulLeNeg(num, den, x);
      DivMonotone(x * den, x * num, den);
      DivMonotone(x * num, 0, den);
    }
  }

  /** A sample multiplied by the gain factor num / den (at most 1), rounded
      down: the per-sample volume change of a fade step or of
      `gain_during_overlay`. */
  function Scale(x: Sample, num: nat, den: nat): (r: Sample)
    requires 0 < den && num <= den
    ensures 0 <= x ==> 0 <= r <= x
    ensures x < 0 ==> x <= r <= 0
    ensures num == 0 ==> r == Silence
    ensures num == den ==> r == x
  {
    ScaleBetween(x, num, den);
    MulDivCancel(x, den);
    DivModUnique(x * 0, den, 0, 0);
    x * num / den
  }

  /** A larger gain factor never gives a quieter sample. */
  lemma ScaleMonotone(x: Sample, i: nat, j: nat, den: nat)
    requires 0 < den && i <= j <= den
    ensures 0 <= x ==> Scale(x, i, den) <= Scale(x, j, den)
    ensures x < 0 ==> Scale(x, j, den) <= Scale(x, i, den)
  {
    if 0 <= x {
      MulLe(i, j, x);
      DivMonotone(x * i, x * j, den);
    } else {
      MulLeNeg(i, j, x);
      DivMonotone(x * j, x * i, den);
    }
  }

  /** `gain_during_overlay=-10`: a -10 dB gain, the factor 10^(-1/2), taken
      to six decimal places. */
  function MinusTenDb(x: Sample): (r: Sample)
    ensures 0 <= x ==> 0 <= r <= x
    ensures x < 0 ==> x <= r <= 0
    ensures x == Silence ==> r == Silence
  {
    Scale(x, 316228, 1000000)
  }

  /** No gain change, what `overlay` does when `gain_during_overlay` is not given. */
  function Unity(x: Sample): (r: Sample)
  {
    x
  }

  /** `AudioSegment.silent(duration=d)`. */
  function Silent(d: nat): (r: Clip)
    ensures |r| == d
    ensures forall i :: 0 <= i < d ==> r[i] == Silence
  {
    seq(d, i => Silence)
  }

  /** `a + b` on segments: `b` appended to `a` without crossfade. */
  function Concat(a: Clip, b: Clip): (r: Clip)
    ensures |r| == |a| + |b|
    ensures forall i :: 0 <= i < |a| ==> r[i] == a[i]
    ensures forall j :: 0 <= j < |b| ==> r[|a| + j] == b[j]
  {
    a + b
  }

  /** `c * n` for an integer n: n copies of c, one after the other. */
  function Repeat(c: Clip, n: nat): (r: Clip)
    ensures |r| == |c| * n
  {
    if n == 0 then [] else c + Repeat(c, n - 1)
  }

  /** Sample i of a repetition is sample i mod |c| of the clip. */
  lemma {:induction false} RepeatAt(c: Clip, n: nat, i: nat)
    requires i < |c| * n
    ensures Repeat(c, n)[i] == c[i % |c|]
  {
    if i < |c| {
      ModSmall(i, |c|);
    } else {
      RepeatAt(c, n - 1, i - |c|);
      ModShift(i, |c|);
    }
  }

  /** `c[:n]`: the first n ms, or the whole clip when it is shorter. */
  function Prefix(c: Clip, n: nat): (r: Clip)
    ensures |r| == if n <= |c| then n else |c|
    ensures forall i :: 0 <= i < |r| ==> r[i] == c[i]
  {
    c[..if n <= |c| then n else |c|]
  }

  /** The overlapped window: each base sample after `gain`, plus the top sample. */
  function MixWindow(base: Clip, top: Clip, gain: Sample -> Sample): (r: Clip)
    requires |base| == |top|
  {
    seq(|base|, i requires 0 <= i < |base| => Add(gain(base[i]), top[i]))
  }

  /** `base.overlay(top, position=pos)`, with `gain` applied to the base where
      the two overlap (`gain_during_overlay`). The result keeps the base's
      length: the base before `pos` is kept, then the overlap is mixed sample
      by sample, and whatever of `top` runs past the end of the base is
      dropped. A position at or past the end of the base leaves it unchanged. */
  function Overlay(base: Clip, top: Clip, pos: nat, gain: Sample -> Sample): (r: Clip)
    ensures |r| == |base|
    ensures forall i :: 0 <= i < |base| && pos <= i < pos + |top| ==>
              r[i] == Add(gain(base[i]), top[i - pos])
    ensures forall i :: 0 <= i < |base| && !(pos <= i < pos + |top|) ==> r[i] == base[i]
  {
    var p := if pos <= |base| then pos else |base|;
    var rest := base[p..];
    var k := if |top| <= |rest| then |top| else |rest|;
    base[..p] + MixWindow(rest[..k], top[..k], gain) + rest[k..]
  }

  /** Overlaying from position 0 onto silence, with a gain that keeps silence
      silent, gives the top clip cut to the base's length. */
  lemma OverlayOntoSilence(base: Clip, top: Clip, gain: Sample -> Sample)
    requires forall i :: 0 <= i < |base| ==> base[i] == Silence
    requires gain(Silence) == Silence && |base| <= |top|
    ensures Overlay(base, top, 0, gain) == Prefix(top, |base|)
  {
    var r := Overlay(base, top, 0, gain);
    assert forall i :: 0 <= i < |r| ==> r[i] == top[i];
  }

  /** The f ms being faded: sample k multiplied by k / f (rising) or by (f - k) / f. */
  function FadeWindow(w: Clip, rising: bool): (r: Clip)
    requires |w| > 0
  {
    seq(|w|, k requires 0 <= k < |w| => Scale(w[k], if rising then k else |w| - k, |w|))
  }

  /** `c.fade_in(f)`: the first f ms ramp up linearly from silence; the rest is untouched. */
  function FadeIn(c: Clip, f: nat): (r: Clip)
    requires 0 < f <= |c|
    ensures |r| == |c|
    ensures forall i :: 0 <= i < f ==> r[i] == Scale(c[i], i, f)
    ensures forall i :: f <= i < |c| ==> r[i] == c[i]
  {
    FadeWindow(c[..f], true) + c[f..]
  }

  /** `c.fade_out(f)`: the last f ms ramp down linearly; the rest is untouched. */
  function FadeOut(c: Clip, f: nat): (r: Clip)
    requires 0 < f <= |c|
    ensures |r| == |c|
    ensures forall i :: 0 <= i < |c| - f ==> r[i] == c[i]
    ensures forall i :: |c| - f <= i < |c| ==> r[i] == Scale(c[i], |c| - i, f)
  {
    c[..|c| - f] + FadeWindow(c[|c| - f..], false)
  }

  /** A fade-in starts from silence and its gain never falls along the window;
      a fade-out's gain never rises. */
  lemma FadeEnvelope(c: Clip, f: nat, i: nat, j: nat)
    requires 0 < f <= |c| && i <= j < f
    ensures FadeIn(c, f)[0] == Silence
    ensures 0 <= c[i] ==> FadeIn(c, f)[i] <= Scale(c[i], j, f)
    ensures c[i] < 0 ==> Scale(c[i], j, f) <= FadeIn(c, f)[i]
    ensures 0 <= c[|c| - f + i] ==> Scale(c[|c| - f + i], f - j, f) <= FadeOut(c, f)[|c| - f + i]
    ensures c[|c| - f + i] < 0 ==> FadeOut(c, f)[|c| - f + i] <= Scale(c[|c| - f + i], f - j, f)
  {
    ScaleMonotone(c[i], i, j, f);
    ScaleMonotone(c[|c| - f + i], f - j, f - i, f);
  }
}
