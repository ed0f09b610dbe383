/**
 * The download filenames of the two transform routes:
 * `f"{stem}_{int(bpm_factor * 100)}pct{file_ext}"` and
 * `f"{stem}_{sign}{semitones}st{file_ext}"`, where `stem` is the stem of the
 * uploaded filename and `file_ext` its lower-cased suffix.
 */
module OutputNames {

  import opened Outcomes
  import opened Paths
  import opened Decimal
  import opened Formats

  /** `int(bpm_factor * 100)`, computed on exact reals. */
  function Percent(factor: real): int {
    Trunc(factor * 100.0)
  }

  /** The tempo percentage of a factor admitted by the form lies between 50 and 150. */
  lemma PercentBounds(factor: real)
    requires 0.5 <= factor <= 1.5
    ensures 50 <= Percent(factor) <= 150
    ensures Percent(factor) as real <= factor * 100.0 < Percent(factor) as real + 1.0
  {
  }

  /** The output name of `change-bpm`. */
  function TempoFilename(filename: string, factor: real): string {
    Stem(filename) + "_" + IntToString(Percent(factor)) + "pct" + LowerSuffix(filename)
  }

  /** `"+"` for a non-negative shift, nothing otherwise, then `str(semitones)`. */
  function SignedSemitones(semitones: int): (tag: string)
    ensures 2 <= |tag|
    ensures semitones >= 0 ==> tag[0] == '+' && '-' !in tag
    ensures semitones < 0 ==> tag[0] == '-' && '+' !in tag && multiset(tag)['-'] == 1
    ensures '/' !in tag
  {
    var n := if semitones < 0 then -semitones else semitones;
    DigitsExclude(n, '+');
    DigitsExclude(n, '-');
    DigitsExclude(n, '/');
    var sign := if semitones >= 0 then "+" else "-";
    assert (if semitones >= 0 then "+" else "") + IntToString(semitones) == sign + NatToString(n);
    assert multiset(NatToString(n))['-'] == 0;
    (if semitones >= 0 then "+" else "") + IntToString(semitones)
  }

  /** The digits of `str(n)` contain no sign and no slash. */
  lemma DigitsExclude(n: nat, c: char)
    requires !IsDigit(c)
    ensures c !in NatToString(n)
  {
    var s := NatToString(n);
    assert forall j :: 0 <= j < |s| ==> IsDigit(s[j]);
  }

  /** Reads a signed shift back: `+n` or `-n`. */
  function ParseSignedSemitones(tag: string): Option<int> {
    if |tag| >= 2 && tag[0] == '+' && AllDigits(tag[1..]) then Some(ParseNat(tag[1..]))
    else ParseInt(tag)
  }

  /** The sign tag names the shift unambiguously. */
  lemma {:induction false} SignedSemitonesRoundTrip(semitones: int)
    ensures ParseSignedSemitones(SignedSemitones(semitones)) == Some(semitones)
  {
    var tag := SignedSemitones(semitones);
    if semitones >= 0 {
      assert tag[1..] == NatToString(semitones);
      ParseNatToString(semitones);
    } else {
      assert tag == IntToString(semitones);
      ParseIntToString(semitones);
    }
  }

  /** The output name of `pitch-shift`. */
  function PitchFilename(filename: string, semitones: int): string {
    Stem(filename) + "_" + SignedSemitones(semitones) + "st" + LowerSuffix(filename)
  }

  lemma NoSlashIn(s: string, t: string)
    requires '/' !in s && '/' !in t
    ensures '/' !in s + t
  {
    assert forall j :: 0 <= j < |s + t| ==> (s + t)[j] == if j < |s| then s[j] else t[j - |s|];
  }

  /**
   * A tempo download of an accepted upload keeps the (lower-cased) extension:
   * `pathlib` splits the output name into the input's stem followed by
   * `_<percent>pct`, and the input's extension; the percentage reads back as
   * an integer between 50 and 150.
   */
  lemma {:induction false} TempoFilenameSplits(filename: string, factor: real)
    requires LowerSuffix(filename) in AllowedExtensions
    requires 0.5 <= factor <= 1.5
    ensures var digits := IntToString(Percent(factor));
            && Suffix(TempoFilename(filename, factor)) == LowerSuffix(filename)
            && Stem(TempoFilename(filename, factor)) == Stem(filename) + "_" + digits + "pct"
            && ParseInt(digits) == Some(Percent(factor))
            && 50 <= Percent(factor) <= 150
  {
    var ext := LowerSuffix(filename);
    AllowedAreExtensions(ext);
    PercentBounds(factor);
    var digits := IntToString(Percent(factor));
    DigitsExclude(Percent(factor), '/');
    NoSlashIn(Stem(filename), "_");
    NoSlashIn(Stem(filename) + "_", digits);
    NoSlashIn(Stem(filename) + "_" + digits, "pct");
    var head := Stem(filename) + "_" + digits + "pct";
    SplitJoin(head, ext);
    ParseIntToString(Percent(factor));
  }

  /**
   * A pitch download of an accepted upload keeps the (lower-cased) extension,
   * its stem is the input's stem followed by `_<sign><n>st`, and the sign tag
   * reads back as the shift.
   */
  lemma {:induction false} PitchFilenameSplits(filename: string, semitones: int)
    requires LowerSuffix(filename) in AllowedExtensions
    ensures var tag := SignedSemitones(semitones);
            && Suffix(PitchFilename(filename, semitones)) == LowerSuffix(filename)
            && Stem(PitchFilename(filename, semitones)) == Stem(filename) + "_" + tag + "st"
            && ParseSignedSemitones(tag) == Some(semitones)
  {
    var ext := LowerSuffix(filename);
    AllowedAreExtensions(ext);
    var tag := SignedSemitones(semitones);
    NoSlashIn(Stem(filename), "_");
    NoSlashIn(Stem(filename) + "_", tag);
    NoSlashIn(Stem(filename) + "_" + tag, "st");
    var head := Stem(filename) + "_" + tag + "st";
    SplitJoin(head, ext);
    SignedSemitonesRoundTrip(semitones);
  }
}
