/**
 * The request checks of the three audio routes, in the order they run:
 * FastAPI's form bounds (422), then in the handler the filename (400), the
 * extension (400) and the byte size (413), and inside the processing block
 * the decoded duration (400) and, for pitch shifting only, a zero shift (400).
 */
module Validation {

  import opened Outcomes
  import opened Paths
  import opened Formats
  import opened Http

  /** `MAX_FILE_SIZE`, 100 MiB. */
  const MaxFileSize: nat := 100 * 1024 * 1024

  /** `MAX_DURATION_SECONDS`, 15 minutes. */
  const MaxDurationSeconds: nat := 15 * 60

  /** The route called, with its form parameter. */
  datatype Operation = Analyze | ChangeTempo(factor: real) | ShiftPitch(semitones: int)

  /** What the handler knows about the upload before decoding it: the client's filename and the byte count. */
  datatype Upload = Upload(filename: Option<string>, size: nat)

  /** `bpm_factor: float = Form(..., ge=0.5, le=1.5)` and `semitones: int = Form(..., ge=-12, le=12)`. */
  predicate FormInBounds(op: Operation) {
    match op
    case Analyze => true
    case ChangeTempo(f) => 0.5 <= f <= 1.5
    case ShiftPitch(n) => -12 <= n <= 12
  }

  /** `not file.filename`: no filename or an empty one. */
  predicate FilenameMissing(u: Upload) {
    u.filename.None? || u.filename.value == ""
  }

  /** The form check FastAPI runs before the handler; `None` means it passes. */
  function CheckForm(op: Operation): (r: Option<HttpError>)
    ensures r.None? <==> FormInBounds(op)
    ensures r.Some? ==> r.value.status == UnprocessableEntity
  {
    if FormInBounds(op) then None else Some(HttpError(UnprocessableEntity, InvalidForm))
  }

  /** The handler's checks before the processing block; on success, the lower-cased extension. */
  function CheckUpload(u: Upload): (r: Result<string, HttpError>)
    ensures r.Success? <==>
              !FilenameMissing(u) && LowerSuffix(u.filename.value) in AllowedExtensions && u.size <= MaxFileSize
    ensures r.Success? ==> r.value == LowerSuffix(u.filename.value) && r.value in AllowedExtensions
    ensures r.Failure? ==> r.error.status in {BadRequest, PayloadTooLarge}
  {
    if FilenameMissing(u) then Failure(HttpError(BadRequest, FilenameRequired))
    else
      var ext := LowerSuffix(u.filename.value);
      if ext !in AllowedExtensions then Failure(HttpError(BadRequest, InvalidFileType))
      else if u.size > MaxFileSize then Failure(HttpError(PayloadTooLarge, FileTooLarge))
      else Success(ext)
  }

  /** The checks inside the processing block, once the decoded duration is known; `None` means they pass. */
  function CheckDecoded(op: Operation, duration: real): (r: Option<HttpError>)
    ensures r.None? <==> duration <= MaxDurationSeconds as real && !(op.ShiftPitch? && op.semitones == 0)
    ensures r.Some? ==> r.value.status == BadRequest && r.value.reason in {AudioTooLong, NoPitchShift}
  {
    if duration > MaxDurationSeconds as real then Some(HttpError(BadRequest, AudioTooLong))
    else if op.ShiftPitch? && op.semitones == 0 then Some(HttpError(BadRequest, NoPitchShift))
    else None
  }

  /**
   * The whole validation pipeline for a request whose audio decodes to
   * `duration` seconds: the first failing check decides the error; when all
   * pass, the result is the lower-cased extension.
   */
  function Validate(op: Operation, u: Upload, duration: real): (r: Result<string, HttpError>)
    ensures r.Success? ==> r.value in AllowedExtensions
    ensures r.Failure? ==> r.error.status in {BadRequest, PayloadTooLarge, UnprocessableEntity}
  {
    match CheckForm(op)
    case Some(e) => Failure(e)
    case None =>
      match CheckUpload(u)
      case Failure(e) => Failure(e)
      case Success(ext) =>
        match CheckDecoded(op, duration)
        case Some(e) => Failure(e)
        case None => Success(ext)
  }

  /** Every individual check that `Validate` runs passes. */
  predicate AllChecksPass(op: Operation, u: Upload, duration: real) {
    && FormInBounds(op)
    && !FilenameMissing(u)
    && LowerSuffix(u.filename.value) in AllowedExtensions
    && u.size <= MaxFileSize
    && duration <= MaxDurationSeconds as real
    && !(op.ShiftPitch? && op.semitones == 0)
  }

  /** A request is accepted exactly when every check passes, and then the extension is the lower-cased suffix. */
  lemma ValidateAcceptsIffAllChecksPass(op: Operation, u: Upload, duration: real)
    ensures Validate(op, u, duration).Success? <==> AllChecksPass(op, u, duration)
    ensures Validate(op, u, duration).Success? ==>
              Validate(op, u, duration).value == LowerSuffix(u.filename.value)
              && Validate(op, u, duration).value in AllowedExtensions
  {
  }

  /**
   * The order of the checks: each error is the one of the first check that
   * fails, whatever the later inputs are.
   */
  lemma ValidateCheckOrder(op: Operation, u: Upload, duration: real)
    ensures !FormInBounds(op) ==>
              Validate(op, u, duration) == Failure(HttpError(UnprocessableEntity, InvalidForm))
    ensures FormInBounds(op) && FilenameMissing(u) ==>
              Validate(op, u, duration) == Failure(HttpError(BadRequest, FilenameRequired))
    ensures FormInBounds(op) && !FilenameMissing(u)
            && LowerSuffix(u.filename.value) !in AllowedExtensions ==>
              Validate(op, u, duration) == Failure(HttpError(BadRequest, InvalidFileType))
    ensures FormInBounds(op) && !FilenameMissing(u)
            && LowerSuffix(u.filename.value) in AllowedExtensions
            && u.size > MaxFileSize ==>
              Validate(op, u, duration) == Failure(HttpError(PayloadTooLarge, FileTooLarge))
    ensures FormInBounds(op) && CheckUpload(u).Success? && duration > MaxDurationSeconds as real ==>
              Validate(op, u, duration) == Failure(HttpError(BadRequest, AudioTooLong))
    ensures FormInBounds(op) && CheckUpload(u).Success? && duration <= MaxDurationSeconds as real
            && op == ShiftPitch(0) ==>
              Validate(op, u, duration) == Failure(HttpError(BadRequest, NoPitchShift))
  {
  }

  /** Boundaries: exactly 100 MiB and exactly 900 s are accepted; one byte or any fraction more is not. */
  lemma ValidateBoundaries(op: Operation, name: string, duration: real)
    requires FormInBounds(op) && !(op.ShiftPitch? && op.semitones == 0)
    requires name != "" && LowerSuffix(name) in AllowedExtensions
    ensures Validate(op, Upload(Some(name), MaxFileSize), MaxDurationSeconds as real).Success?
    ensures Validate(op, Upload(Some(name), MaxFileSize + 1), MaxDurationSeconds as real)
            == Failure(HttpError(PayloadTooLarge, FileTooLarge))
    ensures duration > MaxDurationSeconds as real ==>
              Validate(op, Upload(Some(name), MaxFileSize), duration) == Failure(HttpError(BadRequest, AudioTooLong))
  {
  }

  /** A zero pitch shift is always refused, but the duration check is reported first. */
  lemma ZeroShiftAlwaysRefused(u: Upload, duration: real)
    ensures Validate(ShiftPitch(0), u, duration).Failure?
    ensures CheckUpload(u).Success? && duration > MaxDurationSeconds as real ==>
              Validate(ShiftPitch(0), u, duration).error.reason == AudioTooLong
  {
  }
}
