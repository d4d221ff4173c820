/**
 * Media-type detection: the extension classifier and the classification of a
 * probe's stream list, with the extension fallback when probing fails. The
 * probe itself (running ffprobe and parsing its JSON) is an input here.
 */
module Detection {
  import opened Wrappers
  import opened Text
  import opened Formats
  import opened Paths

  datatype MediaKind = Audio | Video | Unknown

  /** What probing the input produced: the probe process could not be run or
      exited with an error, its output was not JSON, or the `codec_type` of each
      stream it reported (None for a stream without one). */
  datatype ProbeResult =
    | ProbeProcessFailed
    | ProbeOutputUnparsable
    | ProbeStreams(codecTypes: seq<Option<string>>)

  /** Less common video extensions recognised only by the extension classifier. */
  function LegacyVideoExtensions(): seq<string> {
    ["3gp", "asf", "divx", "f4v", "m2v", "mpg", "mpeg", "ogv", "rmvb"]
  }

  function VideoExtensions(): seq<string> {
    VideoFormats() + LegacyVideoExtensions()
  }

  /** The last suffix of the path's final component, lower-cased, leading dots
      stripped: the lower-cased suffix without its one dot, and empty for a
      path without a suffix. */
  function Extension(path: string): (ext: string)
    ensures var suffix := Suffix(Name(path));
      ext == if suffix == [] then [] else Lower(suffix)[1..]
  {
    var suffix := Suffix(Name(path));
    LStripLoweredSuffix(suffix);
    LStrip(Lower(suffix), '.')
  }

  /** Stripping leading dots from a lowered pathlib suffix removes exactly its
      one dot. */
  lemma {:induction false} LStripLoweredSuffix(suffix: string)
    requires suffix != [] ==> |suffix| >= 2 && suffix[0] == '.' && Lacks(suffix[1..], '.')
    ensures LStrip(Lower(suffix), '.') == if suffix == [] then [] else Lower(suffix)[1..]
  {
    if suffix != [] {
      var low := Lower(suffix);
      assert low[0] == '.';
      assert low[1] != '.' by {
        assert suffix[1..][0] == suffix[1];
      }
      var r := LStrip(low, '.');
      assert |r| == |low| - 1;
    }
  }

  /** `is_video_format`: the path's extension is a known video extension; a
      path without a suffix is never video. */
  predicate IsVideoFormat(path: string)
    ensures IsVideoFormat(path) ==> Suffix(Name(path)) != []
  {
    EmptyIsNoVideoExtension();
    Extension(path) in VideoExtensions()
  }

  /** A path is video by extension exactly when it has a suffix whose lower-cased
      text after the dot is one of the video formats or legacy video extensions;
      in particular a path without a suffix is never video. */
  lemma IsVideoFormatRule(path: string)
    ensures var suffix := Suffix(Name(path));
      IsVideoFormat(path) <==>
        suffix != [] && Lower(suffix)[1..] in VideoExtensions()
  {
    EmptyIsNoVideoExtension();
  }

  lemma EmptyIsNoVideoExtension()
    ensures forall e :: e in VideoExtensions() ==> e != []
  {
  }

  lemma LegacyTokens(e: string)
    requires e in LegacyVideoExtensions()
    ensures IsFormatToken(e)
  {
  }

  /** Every video extension is a plain lower-case token. */
  lemma VideoExtensionsAreTokens()
    ensures forall e :: e in VideoExtensions() ==> IsFormatToken(e)
  {
    forall e | e in VideoExtensions() ensures IsFormatToken(e) {
      if e in VideoFormats() { VideoTokens(e); } else { LegacyTokens(e); }
    }
  }

  /** A dot followed by a format token is a suffix `with_suffix` accepts and
      `suffix` gives back. */
  lemma TokenSuffix(token: string)
    requires IsFormatToken(token)
    ensures IsSimpleSuffix("." + token)
    ensures Lower("." + token) == "." + token
  {
    var s := "." + token;
    assert s[1..] == token;
    forall k | 0 <= k < |s| ensures s[k] != '/' && !IsUpper(s[k]) {
      if k > 0 { assert s[k] == token[k - 1]; }
    }
  }

  /** Any path whose final component is a non-empty stem, a dot and a video
      extension is video by extension, whatever its directory. */
  lemma ResuffixedPathIsVideo(dir: string, stem: string, ext: string)
    requires dir == [] || dir[|dir| - 1] == '/'
    requires stem != [] && Lacks(stem, '/')
    requires ext in VideoExtensions()
    ensures IsVideoFormat(dir + stem + "." + ext)
  {
    VideoExtensionsAreTokens();
    var suffix := "." + ext;
    TokenSuffix(ext);
    var n := stem + suffix;
    assert Lacks(n, '/') by {
      forall k | 0 <= k < |n| ensures n[k] != '/' {
        if k < |stem| { assert n[k] == stem[k]; } else { assert n[k] == suffix[k - |stem|]; }
      }
    }
    assert dir + stem + "." + ext == dir + n;
    SplitOfJoin(dir, n);
    SuffixOfResuffixed(stem, suffix);
    assert Lower(suffix)[1..] == ext;
    IsVideoFormatRule(dir + n);
  }

  /** Whether some stream reports the codec type `t` (`any(...)` over the streams). */
  function AnyCodecType(codecTypes: seq<Option<string>>, t: string): (b: bool)
    ensures b <==> exists i :: 0 <= i < |codecTypes| && codecTypes[i] == Some(t)
  {
    if codecTypes == [] then false
    else codecTypes[0] == Some(t) || AnyCodecType(codecTypes[1..], t)
  }

  /** Classification of a successful probe: video wins over audio, and a probe
      with neither is unknown. */
  function ClassifyStreams(codecTypes: seq<Option<string>>): (k: MediaKind)
    ensures k == Video <==> Some("video") in codecTypes
    ensures k == Audio <==> Some("video") !in codecTypes && Some("audio") in codecTypes
    ensures k == Unknown <==> Some("video") !in codecTypes && Some("audio") !in codecTypes
  {
    var hasVideo := AnyCodecType(codecTypes, "video");
    var hasAudio := AnyCodecType(codecTypes, "audio");
    if hasVideo then Video
    else if hasAudio then Audio
    else Unknown
  }

  /** Extension-based guess used when probing fails: never unknown. */
  function FallbackKind(path: string): (k: MediaKind)
    ensures k != Unknown
    ensures k == Video <==> IsVideoFormat(path)
  {
    if IsVideoFormat(path) then Video else Audio
  }

  /** `detect_media_type` as it is meant to behave: every failed probe, whether
      the process failed or its output did not parse, falls back to the extension. */
  function DetectMediaType(path: string, probe: ProbeResult): (k: MediaKind)
    ensures probe.ProbeStreams? ==> k == ClassifyStreams(probe.codecTypes)
    ensures !probe.ProbeStreams? ==> k != Unknown && (k == Video <==> IsVideoFormat(path))
  {
    match probe
    case ProbeStreams(codecTypes) => ClassifyStreams(codecTypes)
    case _ => FallbackKind(path)
  }

  /** The exception `detect_media_type` raises instead of returning a kind. */
  datatype DetectError = UnboundLocalJson

  /** `detect_media_type` as written: `json` is bound by an import that runs only
      after the probe process has succeeded, so when the process fails the
      handler's exception tuple cannot be evaluated and an error escapes; only
      unparsable output reaches the extension fallback. */
  function DetectMediaTypeAsWritten(path: string, probe: ProbeResult): (r: Result<MediaKind, DetectError>)
    ensures r.Failure? <==> probe == ProbeProcessFailed
    ensures probe == ProbeOutputUnparsable ==> r == Success(FallbackKind(path))
    ensures probe.ProbeStreams? ==> r == Success(ClassifyStreams(probe.codecTypes))
  {
    match probe
    case ProbeProcessFailed => Failure(UnboundLocalJson)
    case ProbeOutputUnparsable => Success(FallbackKind(path))
    case ProbeStreams(codecTypes) => Success(ClassifyStreams(codecTypes))
  }

  /** The two agree except on a failed probe process, where the code as written
      raises and the intended detector falls back to the extension. */
  lemma AsWrittenDiffersOnlyOnProcessFailure(path: string, probe: ProbeResult)
    ensures probe != ProbeProcessFailed ==>
      DetectMediaTypeAsWritten(path, probe) == Success(DetectMediaType(path, probe))
    ensures probe == ProbeProcessFailed ==>
      DetectMediaTypeAsWritten(path, probe).Failure? && DetectMediaType(path, probe) != Unknown
  {
  }

  /** Concrete input showing the discrepancy: probing "clip.mov" with a failing
      ffprobe raises as written, while the fallback reports video. */
  lemma ProcessFailureSkipsFallback(path: string)
    requires path == "clip.mov"
    ensures DetectMediaTypeAsWritten(path, ProbeProcessFailed) == Failure(UnboundLocalJson)
    ensures DetectMediaType(path, ProbeProcessFailed) == Video
  {
    assert path == [] + "clip" + "." + "mov";
    ResuffixedPathIsVideo([], "clip", "mov");
  }
}
