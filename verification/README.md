# Audio routes: a Dafny model

This project models the logic that the audio API owns in
`backend/app/api/routes/audio.py`. The API has three routes:

- `/audio/analyze` reports the musical key, the tempo and the duration of an uploaded clip.
- `/audio/change-bpm` time-stretches a clip by a factor.
- `/audio/pitch-shift` shifts a clip by a number of semitones.

Around the signal processing, which librosa and soundfile do, the routes run a fixed sequence of checks. They build the download's filename from the upload's stem and suffix, choose a key from 24 template correlations, and map an effect over the channels of a clip. The model covers all four of these pieces.

Modules, leaf first:

- `Outcomes`: `Option` and `Result`.
- `Paths`: the part of `pathlib` the routes use. It covers the final path component (`name`), `suffix`, `stem` and ASCII `lower()`.
- `Decimal`: `str(int)` with its inverse parser, and `int(x)` (truncation toward zero).
- `Formats`: `ALLOWED_EXTENSIONS`, `EXTENSION_TO_FORMAT` and `EXTENSION_TO_MIME`, plus the extension-acceptance rule.
- `Http`: status codes, refusal reasons, and the `except HTTPException: raise` / `except Exception: 500` guard.
- `Validation`: `MAX_FILE_SIZE` and `MAX_DURATION_SECONDS`, each check, and the ordered pipeline `Validate`.
- `KeyDetection`: `np.roll` on a 12-entry profile, the first-occurrence `np.argmax`, and the major/minor selection of `detect_key`. It also has `KEY_NAMES` and a parser that reads a key string back.
- `Channels`: `process_audio_stereo` as a reference function (`MapChannels`) and as a loop (`ProcessAudioStereo`), plus the `np.array` stacking and the `.T` transpose before writing (`ProcessForWrite`).
- `OutputNames`: the download filenames of the two transform routes.
- `AudioRoutes`: the three route handlers as pure functions of the request and of the outcomes of the foreign calls.

Modelling assumptions:

- Foreign calls are parameters. These are `librosa.load`/`get_duration`, `beat.beat_track`, `feature.chroma_cqt`, `effects.time_stretch`, `effects.pitch_shift` and `sf.write`. A foreign call returns `None` when it raises an exception that is not an `HTTPException`.
- The correlation in `detect_key` is the parameter `corr`. Scores are exact `real`s.
- FastAPI's form bounds `Form(..., ge=…, le=…)` are modelled as an explicit 422 branch. It runs before the handler body.
- `pathlib` is standard library and is not modelled from its source. Its rules are stated as an assumption: POSIX paths, empty and `.` components dropped, and `name`, `suffix` and `stem` as CPython 3.12 computes them. With `i` the last index of `.` in the name, the suffix is `name[i:]` when `0 < i < len(name) - 1`; otherwise it is empty. The stem is the rest.
- `str.lower()` is modelled on ASCII letters only. No non-ASCII character lower-cases to a letter of `mp3`, `wav` or `flac`, so the acceptance rule is unaffected.
- `librosa.load(..., sr=None)` yields the clip's native sample rate with the signal. The transform routes write their result at that rate, and `pitch_shift` receives it too, so the pitch effect is a function of the rate.
- Starlette is not part of this model. Its one behaviour the routes depend on is stated as an assumption: `StreamingResponse` encodes every header value with latin-1, so building the response raises for a filename holding a character above U+00FF. That happens inside the `try` block.
- `np.roll(p, i)` is modelled for 12-entry profiles. Every call in `detect_key` uses that length.

Behaviour worth knowing, as the code has it:

- A tie between the best major score and the best minor score goes to **minor**. The comparison at line 56 is strict.
- The download name uses the **lower-cased** suffix. `song.MP3` becomes `song_100pct.mp3`.
- A factor of exactly 1.0 is accepted and produces a `_100pct` file.
- The size check runs on the fully read payload.
- A zero pitch shift is refused only inside the processing block, after the duration check. Both refusals are 400s, and the duration refusal is reported first.
- Channels that fail to stack (ragged lengths after the effect) make NumPy raise. That is a 500.
- An upload whose stem holds a character above U+00FF, such as `歌.mp3`, passes every check. It is decoded, processed and written, and only then refused with a 500, because the download name cannot go into a latin-1 header.

## Model

| member | source | states |
|---|---|---|
| Paths.Suffix | backend/app/api/routes/audio.py:75 | a suffix is empty or a well-formed extension: a dot, at least one more character, no further dot and no `/` |
| Paths.Name | backend/app/api/routes/audio.py:75 | the final component never contains `/`, is never `.`, and is no longer than the path |
| Paths.NameOfJoin | backend/app/api/routes/audio.py:75 | the final component of `dir/n` is `n` for any directory part and any real name `n` (no `/`, not empty, not `.`) |
| Paths.NameSkipsTrailingSlash | backend/app/api/routes/audio.py:75 | a trailing `/` adds no component: `p/` has the same final component as `p` |
| Paths.NameSkipsTrailingDot | backend/app/api/routes/audio.py:75 | a trailing `/.` adds no component: `p/.` has the same final component as `p` |
| Paths.NameOfDot | backend/app/api/routes/audio.py:75 | the path `.` has an empty final component |
| Paths.SuffixOfPlainName | backend/app/api/routes/audio.py:75 | in a slash-free name whose last dot lies strictly inside it, the suffix starts at that dot |
| Paths.Stem | backend/app/api/routes/audio.py:225 | the stem followed by the suffix is exactly the final path component, and the stem is non-empty whenever there is a suffix |
| Paths.LowerSuffixIs | backend/app/api/routes/audio.py:75 | `Path(p).suffix.lower()` equals an extension `ext` exactly when the final component is longer than `ext` and ends in `ext` ignoring ASCII case (both directions) |
| Paths.SplitJoin | backend/app/api/routes/audio.py:225-226 | a non-empty slash-free head joined with an extension splits back into exactly that stem and that suffix |
| Paths.NoInnerDotNoSuffix | backend/app/api/routes/audio.py:75-80 | a slash-free name whose only dot, if any, is its first character has an empty suffix, so it is refused |
| Formats.AcceptedIffEndsWithExtension | backend/app/api/routes/audio.py:75-80 | an upload's extension is accepted exactly when its final component ends, case-insensitively and after at least one character, in `.mp3`, `.wav` or `.flac` |
| Formats.UpperCaseSuffixAccepted | backend/app/api/routes/audio.py:75-76 | any non-empty slash-free name followed by `.MP3` validates as `.mp3` |
| Formats.ForeignSuffixRefused | backend/app/api/routes/audio.py:75-80 | any non-empty slash-free name followed by `.ogg` is refused |
| Formats.MissingSuffixRefused | backend/app/api/routes/audio.py:75-80 | `song` has an empty suffix and is refused |
| Formats.DotFileRefused | backend/app/api/routes/audio.py:75-80 | `.mp3` alone has no suffix and is refused |
| Formats.TablesCoverAllowed | backend/app/api/routes/audio.py:131-142 | both the format table and the MIME table are keyed by exactly the allowed extensions, so lookups after validation never fail |
| Validation.CheckForm | backend/app/api/routes/audio.py:165 | FastAPI refuses exactly the form values outside their declared bounds, and always with 422 |
| Validation.CheckUpload | backend/app/api/routes/audio.py:70-88 | the upload passes exactly when it has a non-empty filename whose lower-cased suffix is allowed and at most 100 MiB of content; it then yields that suffix, and it refuses only with 400 or 413 |
| Validation.CheckDecoded | backend/app/api/routes/audio.py:292-304 | a decoded clip passes exactly when it lasts at most 900 s and the shift is not zero; it refuses only with 400, for length or for a zero shift |
| Validation.Validate | backend/app/api/routes/audio.py:248-304 | the whole pipeline refuses only with 400, 413 or 422, and an accepted request yields an allowed extension |
| Validation.ValidateAcceptsIffAllChecksPass | backend/app/api/routes/audio.py:71-88 | a request is accepted iff the form bound, filename, extension, size, duration and non-zero shift checks all pass; then the extension is the lower-cased suffix |
| Validation.ValidateCheckOrder | backend/app/api/routes/audio.py:71-88 | the checks run in the fixed order 422 form, 400 filename, 400 extension, 413 size, 400 duration, 400 zero shift; each error is that of the first failing check whatever the later inputs |
| Validation.ValidateBoundaries | backend/app/api/routes/audio.py:84-106 | exactly 100 MiB and exactly 900 s pass; one byte more gives 413 and any duration above 900 s gives 400 |
| Validation.ZeroShiftAlwaysRefused | backend/app/api/routes/audio.py:293-304 | a zero shift is always refused, and an over-long clip is reported as too long rather than as a zero shift |
| Http.Guard | backend/app/api/routes/audio.py:330-335 | an HTTP error raised in the processing block keeps its code, any other failure becomes a 500, and a value is returned unchanged |
| KeyDetection.RollMovesEntries | backend/app/api/routes/audio.py:47-48 | rolling by `i` moves profile entry `j` to index `(j + i) mod 12` |
| KeyDetection.RollCompose | backend/app/api/routes/audio.py:47-48 | rolling twice is rolling by the sum, and a roll by 12 is the identity |
| KeyDetection.Templates | backend/app/api/routes/audio.py:46-48 | there are 12 templates of 12 entries, and template `i` carries the tonic weight at index `i` |
| KeyDetection.ScoresRotateWithChroma | backend/app/api/routes/audio.py:46-50 | with a correlation unchanged by rotating both its arguments alike, rolling the chroma by `r` moves the score of every template `i` to template `(i + r) mod 12`: transposing a clip transposes its scores |
| KeyDetection.ArgMax | backend/app/api/routes/audio.py:53-54 | the result is the first index attaining the maximum score |
| KeyDetection.FirstArgMaxUnique | backend/app/api/routes/audio.py:53-54 | at most one index is the first maximum, so the argmax choice is determined |
| KeyDetection.SelectKey | backend/app/api/routes/audio.py:52-59 | major is chosen iff some major score beats every minor score (ties go to minor); the tonic is the first best index of the chosen mode |
| KeyDetection.DetectKey | backend/app/api/routes/audio.py:33-59 | the detected key is the first best-correlating rotation of its mode, and it is major exactly when a major rotation scores above all minor rotations |
| KeyDetection.KeyName | backend/app/api/routes/audio.py:56-59 | the result is one of the 24 strings `KEY_NAMES[i] + " major"` or `KEY_NAMES[i] + " minor"` |
| KeyDetection.ParseKeyName | backend/app/api/routes/audio.py:56-59 | reading a reported key string back gives the key |
| KeyDetection.KeyNameInjective | backend/app/api/routes/audio.py:22 | different keys are reported as different strings |
| Channels.MapAll | backend/app/api/routes/audio.py:158 | on success there are as many output channels as input channels, and output channel `k` is the effect of input channel `k`; on failure some channel's effect raised |
| Channels.MapChannels | backend/app/api/routes/audio.py:153-159 | a mono signal is processed once and stays mono; a multi-channel one succeeds exactly when every channel's effect succeeds, keeping channel count and order |
| Channels.ProcessAudioStereo | backend/app/api/routes/audio.py:145-159 | a mono signal gets exactly one call; a multi-channel one gets one call per channel in order, and on failure every call but the last succeeded and the last raised, so processing stops at the first failing channel; the result agrees with `MapChannels` |
| Channels.Transpose | backend/app/api/routes/audio.py:220 | the result has (samples, channels) shape and `out[s][c] == in[c][s]` |
| Channels.TransposeTwice | backend/app/api/routes/audio.py:220 | transposing twice restores any matrix with no rows or at least one column |
| Channels.ToWritable | backend/app/api/routes/audio.py:219-220 | mono audio is written as is; channels that stack are written as exactly their transpose, and ragged channels fail |
| Channels.ProcessForWrite | backend/app/api/routes/audio.py:213-220 | the array handed to `sf.write`: processed samples for mono; for channels, it exists exactly when every channel's effect succeeds with equal lengths, and frame `s` holds the `s`-th processed sample of every channel in channel order |
| Decimal.ParseNatToString | backend/app/api/routes/audio.py:226 | the decimal digits of `str(n)` read back as `n` |
| Decimal.NatToString | backend/app/api/routes/audio.py:226 | `str(n)` is a non-empty run of decimal digits with no leading zero |
| Decimal.IntToString | backend/app/api/routes/audio.py:320 | `str(i)` starts with `-` exactly when `i` is negative, and the rest is the decimal text of the magnitude |
| Decimal.ParseIntToString | backend/app/api/routes/audio.py:320 | `int(str(i)) == i` for every integer, including negatives |
| Decimal.Trunc | backend/app/api/routes/audio.py:226 | `int(x)` is the integer within distance below 1 of `x` on the side toward zero |
| OutputNames.PercentBounds | backend/app/api/routes/audio.py:165 | for a factor in [0.5, 1.5] the percentage lies in 50..150 |
| OutputNames.TempoFilenameSplits | backend/app/api/routes/audio.py:225-226 | the tempo filename keeps the lower-cased extension, its stem is the input stem plus `_<percent>pct`, and the percentage reads back |
| OutputNames.SignedSemitones | backend/app/api/routes/audio.py:319-320 | a non-negative shift starts with `+` and has no `-`; a negative shift starts with `-`, has exactly one `-` and no `+` |
| OutputNames.SignedSemitonesRoundTrip | backend/app/api/routes/audio.py:319-320 | the sign tag reads back as the shift |
| OutputNames.PitchFilenameSplits | backend/app/api/routes/audio.py:318-320 | the pitch filename keeps the lower-cased extension and its stem is the input stem plus `_<sign><n>st` |
| AudioRoutes.AnalyzeAudioRefusals | backend/app/api/routes/audio.py:70-123 | upload errors come before decoding and a decoded clip failing validation gets that error; once the upload passes, a load failure, or a beat-tracking or chroma failure on a short enough clip, is a 500 |
| AudioRoutes.AnalyzeAudioSuccess | backend/app/api/routes/audio.py:97-116 | analysis succeeds iff validation passes and beat tracking and chroma return; it reports the duration, the tempo and a key string that reads back as the detected key |
| AudioRoutes.ChangeBpmOutcome | backend/app/api/routes/audio.py:162-245 | 422 first, then the upload's error, then a decoded clip's validation error; past validation, a decode failure, a processing, stacking or writing failure, or a download name latin-1 cannot encode is a 500; success iff rendering succeeds and the name is latin-1, with the bytes written at the decoded sample rate, the extension's media type and a filename that keeps the extension |
| AudioRoutes.PitchShiftOutcome | backend/app/api/routes/audio.py:248-339 | like `change_bpm`, including its 500s, with the zero-shift refusal; the shift is given the decoded sample rate and the result is written at it; success implies a non-zero shift and a signed filename that keeps the extension |
| AudioRoutes.AnalyzeBlock | backend/app/api/routes/audio.py:92-123 | the only HTTP error raised inside the block is the 400 for an over-long clip; it returns a value exactly when the clip loads, is short enough and beat tracking and chroma succeed, reporting that duration and tempo |
| AudioRoutes.AnalyzeAudio | backend/app/api/routes/audio.py:62-127 | analysis refuses only with 400, 413 or 500, and a result carries the decoded duration of an upload that passed its checks |
| AudioRoutes.TransformBlock | backend/app/api/routes/audio.py:196-241 | the only HTTP errors raised inside a transform block are the 400s of the duration and zero-shift checks; a download comes only from a decoded clip that passed them, carries the bytes of the effect written at the decoded sample rate, and has the given latin-1 name and the extension's media type |
| AudioRoutes.TempoFilenameLatin1 | backend/app/api/routes/audio.py:225-234 | the `change_bpm` download name can go into the header exactly when the upload's stem can |
| AudioRoutes.PitchFilenameLatin1 | backend/app/api/routes/audio.py:318-328 | the `pitch_shift` download name can go into the header exactly when the upload's stem can |
| AudioRoutes.ChangeBpmUnsendableName | backend/app/api/routes/audio.py:213-241 | a validated upload whose stem is not latin-1 is a 500 whatever the effect and the encoder return, after the effect has run |
| AudioRoutes.PitchShiftUnsendableName | backend/app/api/routes/audio.py:306-335 | a validated upload whose stem is not latin-1 is a 500 whatever the effect and the encoder return, after the effect has run |
| AudioRoutes.ChangeBpm | backend/app/api/routes/audio.py:162-245 | `change_bpm` refuses only with 400, 413, 422 or 500, and succeeds only for a factor in [0.5, 1.5] and an upload that passed its checks |
| AudioRoutes.PitchShift | backend/app/api/routes/audio.py:248-339 | `pitch_shift` refuses only with 400, 413, 422 or 500, and succeeds only for a non-zero shift in -12..12 and an upload that passed its checks |

## Left out

- The librosa and soundfile calls (decoding, duration, beat tracking, chroma, time stretching, pitch shifting, writing) are foreign signal-processing and codec code. They are parameters of the route functions.
- The numerics of `detect_key` are left out: the chroma mean, `np.linalg.norm`, `np.corrcoef` and the `1e-10` guard. Correlations are the abstract parameter `corr` over exact reals.
- NaN correlation scores are not modelled; a silent clip can produce them. With them, `np.argmax` picks the first NaN and the strict comparison picks minor.
- `round(…, 1)` of the reported tempo and duration is left out. `AnalysisResult` carries the unrounded values.
- Floating-point artefacts of `int(bpm_factor * 100)` are left out: the model multiplies exact reals, so a factor of 0.57 gives 57, where IEEE doubles give 56.
- Temporary-file creation and removal, `await file.read()`, the streaming of the body by `StreamingResponse` apart from its latin-1 header encoding, the quoting of the `Content-Disposition` header, and the `detail` texts of errors are HTTP plumbing. The `detail` texts are modelled as a `Reason`; the file-type text joins a set, so its order is unspecified.
- FastAPI's 422 for a form value that is missing or not a number is not modelled: the form parameter is always a number. A NaN factor is not modelled.
- Windows path syntax, the suffix rules of other Python versions, and full Unicode `lower()` are left out.
- Channels.TransposeTwice: does not cover a matrix with rows but zero columns. As a list of rows it transposes to an empty list of frames, which loses the channel count that NumPy keeps in the shape of a (channels, 0) array.
- `backend/app/models.py` is mirrored only as the `AnalysisResult` datatype. `backend/app/api/main.py` is router wiring and is not part of this model.
