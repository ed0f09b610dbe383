/**
 * `process_audio_stereo` and the layout change before writing: librosa
 * hands back audio as one sample row (mono) or as (channels, samples); the
 * effect is applied to the mono row once or to each channel in order, the
 * channels are stacked with `np.array`, and a two-dimensional result is
 * transposed to the (samples, channels) layout soundfile writes.
 *
 * The effect (`librosa.effects.time_stretch` or `pitch_shift`, already bound
 * to its keyword arguments) is a parameter; `None` stands for it raising.
 */
module Channels {

  import opened Outcomes

  /** A decoded signal: `ndim == 1` (mono) or `ndim == 2` (channels, samples). */
  datatype Signal = Mono(samples: seq<real>) | Multi(channels: seq<seq<real>>)

  /** An effect applied to one channel; `None` when it raises. */
  type Effect = seq<real> -> Option<seq<real>>

  /** The effect applied to each channel in order; the first channel that fails stops the list comprehension. */
  function MapAll(cs: seq<seq<real>>, f: Effect): (r: Option<seq<seq<real>>>)
    ensures r.Some? ==> |r.value| == |cs| && forall k :: 0 <= k < |cs| ==> f(cs[k]) == Some(r.value[k])
    ensures r.None? ==> exists k :: 0 <= k < |cs| && f(cs[k]).None?
    decreases |cs|
  {
    if |cs| == 0 then Some([])
    else
      match MapAll(cs[..|cs| - 1], f)
      case None => None
      case Some(done) =>
        match f(cs[|cs| - 1])
        case None => None
        case Some(last) => Some(done + [last])
  }

  /** The effect applied to a whole signal, channel by channel. */
  function MapChannels(y: Signal, f: Effect): (r: Option<Signal>)
    ensures y.Mono? ==> (r.Some? <==> f(y.samples).Some?)
    ensures y.Mono? && r.Some? ==> r.value == Mono(f(y.samples).value)
    ensures y.Multi? ==> (r.Some? <==> forall k :: 0 <= k < |y.channels| ==> f(y.channels[k]).Some?)
    ensures y.Multi? && r.Some? ==>
              r.value.Multi? && |r.value.channels| == |y.channels|
              && forall k :: 0 <= k < |y.channels| ==> f(y.channels[k]) == Some(r.value.channels[k])
  {
    match y
    case Mono(s) =>
      (match f(s)
       case None => None
       case Some(o) => Some(Mono(o)))
    case Multi(cs) =>
      (match MapAll(cs, f)
       case None => None
       case Some(os) => Some(Multi(os)))
  }

  /** Once a prefix of the channels fails, so does every longer prefix. */
  lemma {:induction false} MapAllFailurePersists(cs: seq<seq<real>>, f: Effect, i: nat)
    requires i <= |cs|
    requires MapAll(cs[..i], f).None?
    ensures MapAll(cs, f).None?
    decreases |cs| - i
  {
    if i < |cs| {
      assert cs[..i + 1][..i] == cs[..i];
      MapAllFailurePersists(cs, f, i + 1);
    } else {
      assert cs[..i] == cs;
    }
  }

  /**
   * `process_audio_stereo(y, f)`: `calls` lists, in order, the arguments the
   * effect was applied to. A mono signal is processed by exactly one call; a
   * multi-channel signal by one call per channel in channel order, stopping
   * at the first channel whose effect raises.
   */
  method ProcessAudioStereo(y: Signal, f: Effect) returns (out: Option<Signal>, calls: seq<seq<real>>)
    ensures out == MapChannels(y, f)
    ensures y.Mono? ==> calls == [y.samples]
    ensures y.Multi? && out.Some? ==> calls == y.channels
    ensures y.Multi? && out.None? ==>
              0 < |calls| <= |y.channels| && calls == y.channels[..|calls|]
              && f(calls[|calls| - 1]).None?
              && forall k :: 0 <= k < |calls| - 1 ==> f(calls[k]).Some?
  {
    match y
    case Mono(s) =>
      calls := [s];
      out := match f(s) case None => None case Some(o) => Some(Mono(o));
    case Multi(cs) =>
      var done: seq<seq<real>> := [];
      calls := [];
      var i := 0;
      while i < |cs|
        invariant 0 <= i <= |cs|
        invariant calls == cs[..i]
        invariant MapAll(cs[..i], f) == Some(done)
      {
        calls := calls + [cs[i]];
        var r := f(cs[i]);
        assert cs[..i + 1][..i] == cs[..i];
        if r.None? {
          MapAllFailurePersists(cs, f, i + 1);
          return None, calls;
        }
        done := done + [r.value];
        i := i + 1;
      }
      assert cs[..i] == cs;
      out := Some(Multi(done));
  }

  /** All rows have the same length, so `np.array` stacks them into a 2-D array. */
  predicate IsMatrix(m: seq<seq<real>>) {
    forall r :: 0 <= r < |m| ==> |m[r]| == |m[0]|
  }

  /** The number of columns of a matrix given as rows. */
  function Width(m: seq<seq<real>>): nat {
    if |m| == 0 then 0 else |m[0]|
  }

  /** `.T` of a (rows, columns) array: entry `[s][c]` of the result is entry `[c][s]` of the input. */
  function Transpose(m: seq<seq<real>>): (t: seq<seq<real>>)
    requires IsMatrix(m)
    ensures |t| == Width(m)
    ensures IsMatrix(t)
    ensures forall s :: 0 <= s < |t| ==> |t[s]| == |m|
    ensures forall s, c :: 0 <= s < |t| && 0 <= c < |m| ==> t[s][c] == m[c][s]
  {
    seq(Width(m), s requires 0 <= s < Width(m) => seq(|m|, c requires 0 <= c < |m| => m[c][s]))
  }

  /** Transposing back restores any matrix that has no rows or at least one column. */
  lemma TransposeTwice(m: seq<seq<real>>)
    requires IsMatrix(m) && (|m| == 0 || |m[0]| > 0)
    ensures Transpose(Transpose(m)) == m
  {
    var t := Transpose(m);
    var tt := Transpose(t);
    assert |tt| == |m|;
    forall c | 0 <= c < |m|
      ensures tt[c] == m[c]
    {
      assert |tt[c]| == |m[c]|;
    }
  }

  /** The array passed to `sf.write`: samples of a mono file, or (samples, channels) frames. */
  datatype AudioOut = Samples(samples: seq<real>) | Frames(frames: seq<seq<real>>)

  /**
   * `np.array(channels)` followed by `audio_out = y.T if y.ndim == 2 else y`.
   * Ragged channels cannot be stacked (NumPy raises), and an empty channel
   * list stacks to a one-dimensional empty array that is written untransposed.
   */
  function ToWritable(y: Signal): (o: Option<AudioOut>)
    ensures y.Mono? ==> o == Some(Samples(y.samples))
    ensures y.Multi? && |y.channels| > 0 ==> (o.Some? <==> IsMatrix(y.channels))
    ensures y.Multi? && |y.channels| > 0 && IsMatrix(y.channels) ==> o == Some(Frames(Transpose(y.channels)))
    ensures o.Some? && o.value.Frames? ==>
              y.Multi? && |o.value.frames| == Width(y.channels)
              && forall s, c :: 0 <= s < |o.value.frames| && 0 <= c < |y.channels| ==>
                   |o.value.frames[s]| == |y.channels| && o.value.frames[s][c] == y.channels[c][s]
  {
    match y
    case Mono(s) => Some(Samples(s))
    case Multi(cs) =>
      if |cs| == 0 then Some(Samples([]))
      else if IsMatrix(cs) then Some(Frames(Transpose(cs)))
      else None
  }

  /** Every channel's effect succeeds and all processed channels have the same length, so they stack. */
  predicate StacksCleanly(cs: seq<seq<real>>, f: Effect)
    requires |cs| > 0
  {
    && f(cs[0]).Some?
    && forall k :: 0 <= k < |cs| ==> f(cs[k]).Some? && |f(cs[k]).value| == |f(cs[0]).value|
  }

  /**
   * `process_audio_stereo` followed by `np.array` and the transpose: the
   * array handed to `sf.write`. A multi-channel result has one frame per
   * processed sample and, in frame `s`, the `s`-th processed sample of every
   * channel in channel order.
   */
  function ProcessForWrite(y: Signal, f: Effect): (o: Option<AudioOut>)
    ensures y.Mono? ==> (o.Some? <==> f(y.samples).Some?)
    ensures y.Mono? && o.Some? ==> o.value == Samples(f(y.samples).value)
    ensures y.Multi? && |y.channels| == 0 ==> o == Some(Samples([]))
    ensures y.Multi? && |y.channels| > 0 ==> (o.Some? <==> StacksCleanly(y.channels, f))
    ensures y.Multi? && |y.channels| > 0 && o.Some? ==>
              && o.value.Frames?
              && (forall c :: 0 <= c < |y.channels| ==>
                    f(y.channels[c]).Some? && |f(y.channels[c]).value| == |o.value.frames|)
              && (forall s, c :: 0 <= s < |o.value.frames| && 0 <= c < |y.channels| ==>
                    |o.value.frames[s]| == |y.channels| && o.value.frames[s][c] == f(y.channels[c]).value[s])
  {
    match MapChannels(y, f)
    case None => None
    case Some(p) => ToWritable(p)
  }
}
