/**
 * The three routes of the audio API, `/audio/analyze`, `/audio/change-bpm`
 * and `/audio/pitch-shift`, as pure functions of the request and of the
 * outcomes of the foreign calls they make. Each foreign call is a parameter
 * whose `None` stands for "raised an exception that is not an HTTPException".
 */
module AudioRoutes {

  import opened Outcomes
  import opened Paths
  import opened Formats
  import opened Http
  import opened Validation
  import opened KeyDetection
  import opened Channels
  import opened OutputNames
  import opened Decimal

  type Bytes = seq<bv8>

  /** `AudioAnalysisResult`: key string, tempo and duration. */
  datatype AnalysisResult = AnalysisResult(key: string, bpm: real, duration: real)

  /** The streamed download: its `Content-Disposition` filename, its media type and the encoded audio. */
  datatype Download = Download(filename: string, mediaType: string, body: Bytes)

  /** `librosa.load(..., sr=None, mono=False)`: the signal at its native sample rate, then `librosa.get_duration`. */
  datatype Decoded = Decoded(signal: Signal, sampleRate: nat, duration: real)

  /** `sf.write` of an array at a sample rate in a soundfile format; `None` when it raises. */
  type Encoder = (AudioOut, nat, string) -> Option<Bytes>

  /**
   * The processing block of `analyze_audio`, after the temporary file is
   * written. `chroma` is the 12-entry mean over frames, `np.mean(chroma,
   * axis=1)`, of the (12, frames) chromagram that `detect_key` receives.
   */
  function AnalyzeBlock(duration: Option<real>, tempo: Option<real>, chroma: Option<seq<real>>,
                        corr: Correlation): (r: Raised<AnalysisResult>)
    ensures r.HttpException? ==> r.error == HttpError(BadRequest, AudioTooLong)
    ensures r.Value? <==>
              duration.Some? && duration.value <= MaxDurationSeconds as real && tempo.Some? && chroma.Some?
    ensures r.Value? ==> r.value.duration == duration.value && r.value.bpm == tempo.value
  {
    match duration
    case None => OtherException
    case Some(d) =>
      match CheckDecoded(Analyze, d)
      case Some(e) => HttpException(e)
      case None =>
        match (tempo, chroma)
        case (Some(bpm), Some(c)) => Value(AnalysisResult(KeyName(DetectKey(c, corr)), bpm, d))
        case _ => OtherException
  }

  /**
   * `analyze_audio`: `duration` is the decoded length (`None` when loading
   * raises), `tempo` the result of beat tracking, `chroma` the 12-entry
   * per-pitch-class mean of the chromagram handed to `detect_key` (the
   * chromagram itself and the averaging are not modelled), and `corr` the
   * correlation it uses.
   */
  function AnalyzeAudio(u: Upload, duration: Option<real>, tempo: Option<real>, chroma: Option<seq<real>>,
                        corr: Correlation): (r: Response<AnalysisResult>)
    ensures r.Err? ==> r.error.status in {BadRequest, PayloadTooLarge, InternalServerError}
    ensures r.Ok? ==> CheckUpload(u).Success? && duration.Some? && r.body.duration == duration.value
  {
    match CheckUpload(u)
    case Failure(e) => Err(e)
    case Success(_) => Guard(AnalyzeBlock(duration, tempo, chroma, corr))
  }

  /**
   * The effect applied per channel, stacked, laid out as (samples, channels)
   * and written at the given sample rate in the upload's format.
   */
  function Render(signal: Signal, effect: Effect, encode: Encoder, rate: nat, ext: string): Option<Bytes>
    requires ext in AllowedExtensions
  {
    match ProcessForWrite(signal, effect)
    case None => None
    case Some(out) => encode(out, rate, FormatOf(ext))
  }

  /**
   * The processing block shared by `change_bpm` and `pitch_shift`. The
   * effect may depend on the decoded sample rate, and the result is written
   * at that same rate. The download is built only after the effect has run;
   * a filename that latin-1 cannot encode then raises inside the block.
   */
  function TransformBlock(op: Operation, decoded: Option<Decoded>, effect: nat -> Effect, encode: Encoder,
                          ext: string, outName: string): (b: Raised<Download>)
    requires ext in AllowedExtensions
    ensures b.HttpException? ==> b.error.status == BadRequest && b.error.reason in {AudioTooLong, NoPitchShift}
    ensures b.Value? ==>
              && decoded.Some? && decoded.value.duration <= MaxDurationSeconds as real
              && !(op.ShiftPitch? && op.semitones == 0)
              && b.value.filename == outName && b.value.mediaType == MimeOf(ext)
              && Latin1(outName)
              && Render(decoded.value.signal, effect(decoded.value.sampleRate), encode,
                        decoded.value.sampleRate, ext) == Some(b.value.body)
  {
    match decoded
    case None => OtherException
    case Some(d) =>
      match CheckDecoded(op, d.duration)
      case Some(e) => HttpException(e)
      case None =>
        match Render(d.signal, effect(d.sampleRate), encode, d.sampleRate, ext)
        case None => OtherException
        case Some(bytes) =>
          if Latin1(outName) then Value(Download(outName, MimeOf(ext), bytes)) else OtherException
  }

  /** `change_bpm`: `stretch` is `librosa.effects.time_stretch` bound to `rate=bpm_factor`. */
  function ChangeBpm(u: Upload, factor: real, decoded: Option<Decoded>, stretch: Effect,
                     encode: Encoder): (r: Response<Download>)
    ensures r.Err? ==> r.error.status in {BadRequest, PayloadTooLarge, UnprocessableEntity, InternalServerError}
    ensures r.Ok? ==> 0.5 <= factor <= 1.5 && CheckUpload(u).Success?
  {
    match CheckForm(ChangeTempo(factor))
    case Some(e) => Err(e)
    case None =>
      match CheckUpload(u)
      case Failure(e) => Err(e)
      case Success(ext) =>
        Guard(TransformBlock(ChangeTempo(factor), decoded, _ => stretch, encode, ext,
                             TempoFilename(u.filename.value, factor)))
  }

  /**
   * `pitch_shift`: `shift(sr)` is `librosa.effects.pitch_shift` bound to
   * `n_steps=semitones` and to the decoded sample rate `sr`.
   */
  function PitchShift(u: Upload, semitones: int, decoded: Option<Decoded>, shift: nat -> Effect,
                      encode: Encoder): (r: Response<Download>)
    ensures r.Err? ==> r.error.status in {BadRequest, PayloadTooLarge, UnprocessableEntity, InternalServerError}
    ensures r.Ok? ==> -12 <= semitones <= 12 && semitones != 0 && CheckUpload(u).Success?
  {
    match CheckForm(ShiftPitch(semitones))
    case Some(e) => Err(e)
    case None =>
      match CheckUpload(u)
      case Failure(e) => Err(e)
      case Success(ext) =>
        Guard(TransformBlock(ShiftPitch(semitones), decoded, shift, encode, ext,
                             PitchFilename(u.filename.value, semitones)))
  }

  /**
   * `analyze_audio` refuses a request exactly as the validation pipeline
   * does: upload errors come before decoding and a decoded clip that fails
   * its checks gets that check's error; once the upload passes, a failure to
   * load, or to track the beat or extract chroma from a clip short enough,
   * is a 500.
   */
  lemma AnalyzeAudioRefusals(u: Upload, duration: Option<real>, tempo: Option<real>,
                             chroma: Option<seq<real>>, corr: Correlation)
    ensures var r := AnalyzeAudio(u, duration, tempo, chroma, corr);
            && (CheckUpload(u).Failure? ==> r == Err(CheckUpload(u).error))
            && (duration.Some? && Validate(Analyze, u, duration.value).Failure? ==>
                  r == Err(Validate(Analyze, u, duration.value).error))
            && (CheckUpload(u).Success?
                && (duration.None? || (CheckDecoded(Analyze, duration.value).None? && (tempo.None? || chroma.None?))) ==>
                  r == Err(HttpError(InternalServerError, ProcessingFailed)))
  {
  }

  /**
   * `analyze_audio` succeeds exactly when validation passes and beat tracking
   * and chroma extraction return; it then reports the decoded duration, the
   * tempo, and a key string that reads back as the detected key.
   */
  lemma AnalyzeAudioSuccess(u: Upload, duration: Option<real>, tempo: Option<real>,
                            chroma: Option<seq<real>>, corr: Correlation)
    ensures var r := AnalyzeAudio(u, duration, tempo, chroma, corr);
            && (r.Ok? <==> duration.Some? && Validate(Analyze, u, duration.value).Success?
                           && tempo.Some? && chroma.Some?)
            && (r.Ok? ==> r.body.duration == duration.value && r.body.bpm == tempo.value
                          && ParseKey(r.body.key) == Some(DetectKey(chroma.value, corr)))
  {
    var r := AnalyzeAudio(u, duration, tempo, chroma, corr);
    if CheckUpload(u).Success? && duration.Some? && CheckDecoded(Analyze, duration.value).None?
       && tempo.Some? && chroma.Some? {
      var k := DetectKey(chroma.value, corr);
      assert r == Ok(AnalysisResult(KeyName(k), tempo.value, duration.value));
      ParseKeyName(k);
    } else {
      assert r.Err?;
    }
  }

  /**
   * `change_bpm`: the form bound is checked first (422), then the upload
   * checks; a decoded clip that fails validation gets that check's error.
   * Once the upload passes, a failure to decode is a 500; once the decoded
   * clip passes too, a failure to process, stack or write, or an output
   * filename latin-1 cannot encode, is a 500. A success carries the bytes
   * written at the decoded sample rate, the media type of the upload's
   * extension and a filename that keeps that extension.
   */
  lemma ChangeBpmOutcome(u: Upload, factor: real, decoded: Option<Decoded>, stretch: Effect, encode: Encoder)
    ensures var r := ChangeBpm(u, factor, decoded, stretch, encode);
            var op := ChangeTempo(factor);
            && (CheckForm(op).Some? ==> r == Err(HttpError(UnprocessableEntity, InvalidForm)))
            && (CheckForm(op).None? && CheckUpload(u).Failure? ==> r == Err(CheckUpload(u).error))
            && (decoded.Some? && Validate(op, u, decoded.value.duration).Failure? ==>
                  r == Err(Validate(op, u, decoded.value.duration).error))
            && (CheckForm(op).None? && CheckUpload(u).Success?
                && (decoded.None?
                    || (CheckDecoded(op, decoded.value.duration).None?
                        && (Render(decoded.value.signal, stretch, encode, decoded.value.sampleRate,
                                   LowerSuffix(u.filename.value)).None?
                            || !Latin1(TempoFilename(u.filename.value, factor))))) ==>
                  r == Err(HttpError(InternalServerError, ProcessingFailed)))
            && (r.Ok? <==>
                  && decoded.Some?
                  && Validate(op, u, decoded.value.duration).Success?
                  && Render(decoded.value.signal, stretch, encode, decoded.value.sampleRate,
                            LowerSuffix(u.filename.value)).Some?
                  && Latin1(TempoFilename(u.filename.value, factor)))
            && (r.Ok? ==>
                  var ext := LowerSuffix(u.filename.value);
                  && r.body.body == Render(decoded.value.signal, stretch, encode, decoded.value.sampleRate, ext).value
                  && r.body.mediaType == MimeOf(ext)
                  && r.body.filename == TempoFilename(u.filename.value, factor)
                  && Suffix(r.body.filename) == ext)
  {
    var r := ChangeBpm(u, factor, decoded, stretch, encode);
    ValidateAcceptsIffAllChecksPass(ChangeTempo(factor), u, if decoded.Some? then decoded.value.duration else 0.0);
    if r.Ok? {
      TempoFilenameSplits(u.filename.value, factor);
    }
  }

  /**
   * `pitch_shift`: as `change_bpm`, with the extra refusal of a zero shift
   * after the duration check; the shift is given the decoded sample rate,
   * and a success is named with the signed shift and keeps the upload's
   * extension.
   */
  lemma PitchShiftOutcome(u: Upload, semitones: int, decoded: Option<Decoded>, shift: nat -> Effect, encode: Encoder)
    ensures var r := PitchShift(u, semitones, decoded, shift, encode);
            var op := ShiftPitch(semitones);
            && (CheckForm(op).Some? ==> r == Err(HttpError(UnprocessableEntity, InvalidForm)))
            && (CheckForm(op).None? && CheckUpload(u).Failure? ==> r == Err(CheckUpload(u).error))
            && (decoded.Some? && Validate(op, u, decoded.value.duration).Failure? ==>
                  r == Err(Validate(op, u, decoded.value.duration).error))
            && (CheckForm(op).None? && CheckUpload(u).Success?
                && (decoded.None?
                    || (CheckDecoded(op, decoded.value.duration).None?
                        && (Render(decoded.value.signal, shift(decoded.value.sampleRate), encode,
                                   decoded.value.sampleRate, LowerSuffix(u.filename.value)).None?
                            || !Latin1(PitchFilename(u.filename.value, semitones))))) ==>
                  r == Err(HttpError(InternalServerError, ProcessingFailed)))
            && (r.Ok? <==>
                  && decoded.Some?
                  && Validate(op, u, decoded.value.duration).Success?
                  && Render(decoded.value.signal, shift(decoded.value.sampleRate), encode,
                            decoded.value.sampleRate, LowerSuffix(u.filename.value)).Some?
                  && Latin1(PitchFilename(u.filename.value, semitones)))
            && (r.Ok? ==>
                  var ext := LowerSuffix(u.filename.value);
                  && semitones != 0
                  && r.body.body == Render(decoded.value.signal, shift(decoded.value.sampleRate), encode,
                                           decoded.value.sampleRate, ext).value
                  && r.body.mediaType == MimeOf(ext)
                  && r.body.filename == PitchFilename(u.filename.value, semitones)
                  && Suffix(r.body.filename) == ext)
  {
    var r := PitchShift(u, semitones, decoded, shift, encode);
    ValidateAcceptsIffAllChecksPass(ShiftPitch(semitones), u, if decoded.Some? then decoded.value.duration else 0.0);
    if r.Ok? {
      PitchFilenameSplits(u.filename.value, semitones);
    }
  }

  /** `str(int)` writes only digits and a minus sign. */
  lemma IntToStringLatin1(i: int)
    ensures Latin1(IntToString(i))
  {
    var s := IntToString(i);
    forall k | 0 <= k < |s| ensures s[k] as int < 256 {
      if i < 0 && k > 0 {
        assert s[k] == s[1..][k - 1];
      }
    }
  }

  /** Each allowed extension is ASCII. */
  lemma AllowedExtensionLatin1(ext: string)
    requires ext in AllowedExtensions
    ensures Latin1(ext)
  {
  }

  /** `"+"` or nothing, then `str(semitones)`: digits and a sign only. */
  lemma SignedSemitonesLatin1(semitones: int)
    ensures Latin1(SignedSemitones(semitones))
  {
    var sign := if semitones >= 0 then "+" else "";
    assert SignedSemitones(semitones) == sign + IntToString(semitones);
    IntToStringLatin1(semitones);
    Latin1Concat(sign, IntToString(semitones));
  }

  /** A download name is the stem followed by four parts latin-1 can encode. */
  lemma {:induction false} Latin1AfterStem(stem: string, b: string, c: string, d: string, e: string)
    requires Latin1(b) && Latin1(c) && Latin1(d) && Latin1(e)
    ensures Latin1(stem + b + c + d + e) <==> Latin1(stem)
  {
    Latin1Concat(stem, b);
    Latin1Concat(stem + b, c);
    Latin1Concat(stem + b + c, d);
    Latin1Concat(stem + b + c + d, e);
  }

  /**
   * The `change_bpm` download name can be sent exactly when the upload's
   * stem can: the percentage, the separators and the extension are ASCII.
   */
  lemma {:induction false} TempoFilenameLatin1(filename: string, factor: real)
    requires LowerSuffix(filename) in AllowedExtensions
    ensures Latin1(TempoFilename(filename, factor)) <==> Latin1(Stem(filename))
  {
    IntToStringLatin1(Percent(factor));
    AllowedExtensionLatin1(LowerSuffix(filename));
    assert Latin1("_") && Latin1("pct");
    Latin1AfterStem(Stem(filename), "_", IntToString(Percent(factor)), "pct", LowerSuffix(filename));
  }

  /**
   * The `pitch_shift` download name can be sent exactly when the upload's
   * stem can: the signed shift, the separators and the extension are ASCII.
   */
  lemma {:induction false} PitchFilenameLatin1(filename: string, semitones: int)
    requires LowerSuffix(filename) in AllowedExtensions
    ensures Latin1(PitchFilename(filename, semitones)) <==> Latin1(Stem(filename))
  {
    SignedSemitonesLatin1(semitones);
    AllowedExtensionLatin1(LowerSuffix(filename));
    assert Latin1("_") && Latin1("st");
    Latin1AfterStem(Stem(filename), "_", SignedSemitones(semitones), "st", LowerSuffix(filename));
  }

  /**
   * An upload that passes every check but whose stem holds a character above
   * U+00FF is still processed and written, and only then refused with a 500,
   * whatever the effect and the encoder do.
   */
  lemma ChangeBpmUnsendableName(u: Upload, factor: real, decoded: Option<Decoded>, stretch: Effect,
                                encode: Encoder)
    requires CheckForm(ChangeTempo(factor)).None? && CheckUpload(u).Success?
    requires decoded.Some? && CheckDecoded(ChangeTempo(factor), decoded.value.duration).None?
    requires !Latin1(Stem(u.filename.value))
    ensures ChangeBpm(u, factor, decoded, stretch, encode) == Err(HttpError(InternalServerError, ProcessingFailed))
  {
    TempoFilenameLatin1(u.filename.value, factor);
    ChangeBpmOutcome(u, factor, decoded, stretch, encode);
  }

  /** The same for `pitch_shift`: a validated upload with such a stem is shifted, written, then refused with a 500. */
  lemma PitchShiftUnsendableName(u: Upload, semitones: int, decoded: Option<Decoded>, shift: nat -> Effect,
                                 encode: Encoder)
    requires CheckForm(ShiftPitch(semitones)).None? && CheckUpload(u).Success?
    requires decoded.Some? && CheckDecoded(ShiftPitch(semitones), decoded.value.duration).None?
    requires !Latin1(Stem(u.filename.value))
    ensures PitchShift(u, semitones, decoded, shift, encode) == Err(HttpError(InternalServerError, ProcessingFailed))
  {
    PitchFilenameLatin1(u.filename.value, semitones);
    PitchShiftOutcome(u, semitones, decoded, shift, encode);
  }
}
