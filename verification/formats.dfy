/** The accepted upload extensions and the two tables keyed by them. */
module Formats {

  import opened Paths

  /** `ALLOWED_EXTENSIONS` */
  const AllowedExtensions: set<string> := {".mp3", ".wav", ".flac"}

  /** `EXTENSION_TO_FORMAT`: the soundfile container written for each extension. */
  const ExtensionToFormat: map<string, string> := map[".wav" := "WAV", ".flac" := "FLAC", ".mp3" := "MP3"]

  /** `EXTENSION_TO_MIME`: the media type of the download for each extension. */
  const ExtensionToMime: map<string, string> := map[".wav" := "audio/wav", ".flac" := "audio/flac", ".mp3" := "audio/mpeg"]

  /** Both tables are keyed by exactly the accepted extensions, so a validated extension always has an entry. */
  lemma TablesCoverAllowed()
    ensures ExtensionToFormat.Keys == AllowedExtensions
    ensures ExtensionToMime.Keys == AllowedExtensions
  {
  }

  /** The output container of a validated extension. */
  function FormatOf(ext: string): (f: string)
    requires ext in AllowedExtensions
    ensures f in {"WAV", "FLAC", "MP3"}
  {
    TablesCoverAllowed();
    ExtensionToFormat[ext]
  }

  /** The media type of a validated extension. */
  function MimeOf(ext: string): (m: string)
    requires ext in AllowedExtensions
    ensures m in {"audio/wav", "audio/flac", "audio/mpeg"}
  {
    TablesCoverAllowed();
    ExtensionToMime[ext]
  }

  /** Every accepted extension is a dot followed by lower-case letters or digits. */
  lemma AllowedAreExtensions(ext: string)
    requires ext in AllowedExtensions
    ensures IsExtension(ext)
    ensures Lower(ext) == ext
  {
  }

  /**
   * The acceptance rule as a property of the filename: `Path(p).suffix.lower()`
   * is accepted exactly when the final component is longer than one of the
   * three extensions and ends in it, ignoring ASCII case. So `song.MP3` is
   * accepted while `.mp3`, `song` and `song.ogg` are not.
   */
  lemma {:induction false} AcceptedIffEndsWithExtension(p: string)
    ensures LowerSuffix(p) in AllowedExtensions <==>
            exists ext :: ext in AllowedExtensions && EndsWithIgnoringCase(Name(p), ext)
  {
    forall ext | ext in AllowedExtensions
      ensures LowerSuffix(p) == ext <==> EndsWithIgnoringCase(Name(p), ext)
    {
      AllowedAreExtensions(ext);
      LowerSuffixIs(p, ext);
    }
  }

  /** Upper case in the suffix is accepted: `<name>.MP3` validates as `.mp3`. */
  lemma UpperCaseSuffixAccepted(head: string)
    requires head != "" && '/' !in head
    ensures LowerSuffix(head + ".MP3") == ".mp3"
  {
    assert IsExtension(".MP3");
    SplitJoin(head, ".MP3");
    LowerOfUpperMp3();
  }

  lemma LowerOfUpperMp3()
    ensures Lower(".MP3") == ".mp3"
  {
  }

  /** A foreign suffix is refused: `<name>.ogg`. */
  lemma ForeignSuffixRefused(head: string)
    requires head != "" && '/' !in head
    ensures LowerSuffix(head + ".ogg") !in AllowedExtensions
  {
    assert IsExtension(".ogg");
    SplitJoin(head, ".ogg");
    LowerOfOgg();
  }

  lemma LowerOfOgg()
    ensures Lower(".ogg") == ".ogg"
  {
  }

  /** A name without a dot has no suffix and is refused: `song`. */
  lemma MissingSuffixRefused()
    ensures LowerSuffix("song") == ""
  {
    NoInnerDotNoSuffix("song");
  }

  /** A dot-file has no suffix and is refused: `.mp3`. */
  lemma DotFileRefused()
    ensures LowerSuffix(".mp3") == ""
  {
    NoInnerDotNoSuffix(".mp3");
  }
}
