/**
 * The selection logic of `detect_key`: twelve rotations of each
 * Krumhansl-Schmuckler profile, one correlation score per rotation, a
 * first-occurrence argmax over the major scores and over the minor scores,
 * and a strict comparison that gives ties to minor.
 *
 * The correlation itself (`np.corrcoef` of the normalised mean chroma against
 * a template) is floating-point numerics and is a parameter `corr` here;
 * scores are exact reals.
 */
module KeyDetection {

  import opened Outcomes

  /** `KEY_NAMES`: pitch classes 0..11 from C. */
  const KeyNames: seq<string> := ["C", "C#", "D", "D#", "E", "F", "F#", "G", "G#", "A", "A#", "B"]

  /** `MAJOR_PROFILE` */
  const MajorProfile: seq<real> := [6.35, 2.23, 3.48, 2.33, 4.38, 4.09, 2.52, 5.19, 2.39, 3.66, 2.29, 2.88]

  /** `MINOR_PROFILE` */
  const MinorProfile: seq<real> := [6.33, 2.68, 3.52, 5.38, 2.60, 3.53, 2.54, 4.75, 3.98, 2.69, 3.34, 3.17]

  type PitchClass = i: nat | i < 12

  datatype Mode = Major | Minor

  datatype Key = Key(tonic: PitchClass, mode: Mode)

  /** Correlation of the clip's 12-entry mean chroma with one template. */
  type Correlation = (seq<real>, seq<real>) -> real

  /** `np.roll(p, shift)` on a 12-entry profile: every entry moves `shift` places to the right, cyclically. */
  function Roll(p: seq<real>, shift: int): (r: seq<real>)
    requires |p| == 12
    ensures |r| == 12
  {
    seq(12, k requires 0 <= k < 12 => p[(k - shift) % 12])
  }

  /** Entry `j` of the profile lands at index `(j + shift) mod 12`; in particular the tonic weight lands at `shift`. */
  lemma RollMovesEntries(p: seq<real>, shift: int)
    requires |p| == 12
    ensures forall j :: 0 <= j < 12 ==> Roll(p, shift)[(j + shift) % 12] == p[j]
  {
    forall j | 0 <= j < 12
      ensures Roll(p, shift)[(j + shift) % 12] == p[j]
    {
      var k := (j + shift) % 12;
      RollAt(p, shift, k);
      ModShift(j + shift, shift);
    }
  }

  lemma RollAt(p: seq<real>, shift: int, k: int)
    requires |p| == 12 && 0 <= k < 12
    ensures Roll(p, shift)[k] == p[(k - shift) % 12]
  {
  }

  lemma ModShift(x: int, a: int)
    ensures (x % 12 - a) % 12 == (x - a) % 12
  {
    var q := x / 12;
    assert x % 12 == x - 12 * q;
    MultipleOfTwelve(x - a, -q);
  }

  lemma MultipleOfTwelve(y: int, q: int)
    ensures (y + 12 * q) % 12 == y % 12
  {
  }

  /** Rolling twice is rolling by the sum, and rolling by a whole turn changes nothing. */
  lemma RollCompose(p: seq<real>, a: int, b: int)
    requires |p| == 12
    ensures Roll(Roll(p, a), b) == Roll(p, a + b)
    ensures Roll(p, 12) == p
  {
    var q := Roll(p, a);
    var l, r := Roll(q, b), Roll(p, a + b);
    forall k | 0 <= k < 12
      ensures l[k] == r[k]
    {
      var m := (k - b) % 12;
      RollAt(q, b, k);
      RollAt(p, a, m);
      RollAt(p, a + b, k);
      ModShift(k - b, a);
    }
    var w := Roll(p, 12);
    forall k | 0 <= k < 12
      ensures w[k] == p[k]
    {
      assert (k - 12) % 12 == k;
    }
  }

  /** The twelve rotations of a profile; template `i` carries the tonic weight at index `i`. */
  function Templates(profile: seq<real>): (ts: seq<seq<real>>)
    requires |profile| == 12
    ensures |ts| == 12
    ensures forall i :: 0 <= i < 12 ==> |ts[i]| == 12 && ts[i][i] == profile[0]
  {
    TonicAtShift(profile);
    seq(12, i requires 0 <= i < 12 => Roll(profile, i))
  }

  lemma TonicAtShift(profile: seq<real>)
    requires |profile| == 12
    ensures forall i :: 0 <= i < 12 ==> Roll(profile, i)[i] == profile[0]
  {
    forall i | 0 <= i < 12
      ensures Roll(profile, i)[i] == profile[0]
    {
      RollAt(profile, i, i);
      assert (i - i) % 12 == 0;
    }
  }

  /** The twelve correlation scores of a profile's rotations (`major_correlations` / `minor_correlations`). */
  function Scores(chroma: seq<real>, profile: seq<real>, corr: Correlation): (s: seq<real>)
    requires |profile| == 12
    ensures |s| == 12
  {
    var ts := Templates(profile);
    seq(12, i requires 0 <= i < 12 => corr(chroma, ts[i]))
  }

  /** `k` is the first index at which `s` attains its maximum. */
  predicate IsFirstArgMax(s: seq<real>, k: int) {
    && 0 <= k < |s|
    && (forall j :: 0 <= j < |s| ==> s[j] <= s[k])
    && (forall j :: 0 <= j < k ==> s[j] < s[k])
  }

  /** At most one index is the first maximum. */
  lemma FirstArgMaxUnique(s: seq<real>, k1: int, k2: int)
    requires IsFirstArgMax(s, k1) && IsFirstArgMax(s, k2)
    ensures k1 == k2
  {
    assert s[k1] == s[k2];
  }

  /** The left-to-right scan of `np.argmax`: `best` is the first maximum of `s[..i]`. */
  function ArgMaxFrom(s: seq<real>, best: nat, i: nat): (k: nat)
    requires best < i <= |s|
    requires IsFirstArgMax(s[..i], best)
    ensures IsFirstArgMax(s, k)
    decreases |s| - i
  {
    if i == |s| then
      assert s[..i] == s;
      best
    else if s[i] > s[best] then
      ArgMaxFrom(s, i, i + 1)
    else
      ArgMaxFrom(s, best, i + 1)
  }

  /** `np.argmax`: the first index of a maximal score. */
  function ArgMax(s: seq<real>): (k: nat)
    requires |s| > 0
    ensures IsFirstArgMax(s, k)
  {
    ArgMaxFrom(s, 0, 1)
  }

  /** Some entry of `a` exceeds every entry of `b`. */
  predicate Dominates(a: seq<real>, b: seq<real>) {
    exists i :: 0 <= i < |a| && forall j :: 0 <= j < |b| ==> b[j] < a[i]
  }

  /**
   * The final comparison of `detect_key`: the major key is chosen only when
   * the best major score is strictly greater than the best minor score, so a
   * tie goes to minor; the tonic is the first index of the best score of the
   * chosen mode.
   */
  function SelectKey(major: seq<real>, minor: seq<real>): (k: Key)
    requires |major| == 12 && |minor| == 12
    ensures k.mode == Major <==> Dominates(major, minor)
    ensures k.mode == Major ==> IsFirstArgMax(major, k.tonic)
    ensures k.mode == Minor ==> IsFirstArgMax(minor, k.tonic)
  {
    var bestMajor := ArgMax(major);
    var bestMinor := ArgMax(minor);
    if major[bestMajor] > minor[bestMinor] then
      Key(bestMajor, Major)
    else
      assert forall i :: 0 <= i < 12 ==> major[i] <= minor[bestMinor];
      Key(bestMinor, Minor)
  }

  /** Rolling by a shift or by its remainder modulo 12 is the same. */
  lemma RollByRemainder(p: seq<real>, x: int)
    requires |p| == 12
    ensures Roll(p, x % 12) == Roll(p, x)
  {
    forall k | 0 <= k < 12
      ensures Roll(p, x % 12)[k] == Roll(p, x)[k]
    {
      RollAt(p, x % 12, k);
      RollAt(p, x, k);
      var q := x / 12;
      assert x % 12 == x - 12 * q;
      MultipleOfTwelve(k - x, q);
    }
  }

  /**
   * A correlation that ignores a common rotation of both arguments, as a
   * Pearson correlation does, being a sum over matching entries.
   */
  ghost predicate RotationInvariant(corr: Correlation) {
    forall a, b, r :: |a| == 12 && |b| == 12 ==> corr(Roll(a, r), Roll(b, r)) == corr(a, b)
  }

  /**
   * Transposing the clip transposes the scores: with a rotation-invariant
   * correlation, rolling the chroma by `r` moves the score of every
   * template `i` to template `(i + r) mod 12`.
   */
  lemma ScoresRotateWithChroma(chroma: seq<real>, profile: seq<real>, corr: Correlation, r: int, i: int)
    requires |chroma| == 12 && |profile| == 12 && 0 <= i < 12
    requires RotationInvariant(corr)
    ensures Scores(Roll(chroma, r), profile, corr)[(i + r) % 12] == Scores(chroma, profile, corr)[i]
  {
    var t := Roll(profile, i);
    ScoreAt(Roll(chroma, r), profile, corr, (i + r) % 12);
    ScoreAt(chroma, profile, corr, i);
    RollThenRoll(profile, i, r);
    CommonRotation(corr, chroma, t, r);
  }

  /** Rolling the template of shift `i` by `r` gives the template of shift `(i + r) mod 12`. */
  lemma RollThenRoll(p: seq<real>, i: int, r: int)
    requires |p| == 12
    ensures Roll(p, (i + r) % 12) == Roll(Roll(p, i), r)
  {
    RollCompose(p, i, r);
    RollByRemainder(p, i + r);
  }

  /** Score `i` is the correlation of the chroma with the profile rolled by `i`. */
  lemma ScoreAt(chroma: seq<real>, profile: seq<real>, corr: Correlation, i: int)
    requires |profile| == 12 && 0 <= i < 12
    ensures Scores(chroma, profile, corr)[i] == corr(chroma, Roll(profile, i))
  {
  }

  lemma CommonRotation(corr: Correlation, a: seq<real>, b: seq<real>, r: int)
    requires |a| == 12 && |b| == 12 && RotationInvariant(corr)
    ensures corr(Roll(a, r), Roll(b, r)) == corr(a, b)
  {
  }

  function ProfileOf(m: Mode): (p: seq<real>)
    ensures |p| == 12
  {
    if m == Major then MajorProfile else MinorProfile
  }

  /**
   * `detect_key` up to its string: the chosen tonic is the first
   * best-scoring rotation of the chosen mode's profile, and major is chosen
   * exactly when some major rotation scores above every minor rotation.
   */
  function DetectKey(chroma: seq<real>, corr: Correlation): (k: Key)
    ensures k.mode == Major <==> Dominates(Scores(chroma, MajorProfile, corr), Scores(chroma, MinorProfile, corr))
    ensures IsFirstArgMax(Scores(chroma, ProfileOf(k.mode), corr), k.tonic)
  {
    SelectKey(Scores(chroma, MajorProfile, corr), Scores(chroma, MinorProfile, corr))
  }

  /** `f"{KEY_NAMES[idx]} major"` or `f"{KEY_NAMES[idx]} minor"`. */
  function KeyName(k: Key): (s: string)
    ensures exists i :: 0 <= i < 12 && (s == KeyNames[i] + " major" || s == KeyNames[i] + " minor")
  {
    KeyNames[k.tonic] + (if k.mode == Major then " major" else " minor")
  }

  /** The index of a note name in `KEY_NAMES`, searching from `from`. */
  function NoteIndex(name: string, from: nat): (r: Option<PitchClass>)
    requires from <= 12
    ensures r.Some? ==> from <= r.value && KeyNames[r.value] == name
    ensures r.None? ==> forall i :: from <= i < 12 ==> KeyNames[i] != name
    decreases 12 - from
  {
    if from == 12 then None
    else if KeyNames[from] == name then Some(from)
    else NoteIndex(name, from + 1)
  }

  /** Reads a key string back: `"<note> major"` or `"<note> minor"`. */
  function ParseKey(s: string): Option<Key> {
    if |s| < 6 then None
    else
      var mode := s[|s| - 6..];
      var note := NoteIndex(s[..|s| - 6], 0);
      if note.None? then None
      else if mode == " major" then Some(Key(note.value, Major))
      else if mode == " minor" then Some(Key(note.value, Minor))
      else None
  }

  /** The twelve note names are pairwise different. */
  lemma KeyNamesDistinct()
    ensures forall i, j :: 0 <= i < j < 12 ==> KeyNames[i] != KeyNames[j]
  {
  }

  /** The result string names its key unambiguously: parsing it gives the key back. */
  lemma {:induction false} ParseKeyName(k: Key)
    ensures ParseKey(KeyName(k)) == Some(k)
  {
    var s := KeyName(k);
    var suffix := if k.mode == Major then " major" else " minor";
    assert s == KeyNames[k.tonic] + suffix;
    assert s[..|s| - 6] == KeyNames[k.tonic];
    assert s[|s| - 6..] == suffix;
    KeyNamesDistinct();
    var found := NoteIndex(KeyNames[k.tonic], 0);
    assert found == Some(k.tonic);
  }

  /** Different keys are reported with different strings (24 distinct results). */
  lemma KeyNameInjective(a: Key, b: Key)
    requires KeyName(a) == KeyName(b)
    ensures a == b
  {
    ParseKeyName(a);
    ParseKeyName(b);
  }
}
