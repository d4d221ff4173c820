/**
 * The codec plan: for a requested output format and quality, the encoder
 * arguments passed to ffmpeg, and the whole ffmpeg command around them.
 * ResolvePlan states the decision as a table keyed by format; BuildCommand
 * builds the command list step by step as convert_media does, and is proved to
 * produce the table's plan.
 */
module Codec {
  import opened Wrappers
  import opened Text
  import opened Formats

  /** The quality the command line uses when none is given. */
  const DefaultQuality := "192k"
  /** The audio bitrate every video target gets, whatever the quality. */
  const VideoAudioBitrate := "128k"

  /** One encoder option: a flag and its value. */
  datatype Arg = Arg(flag: string, value: string)

  /** The flags a plan may use. */
  const CodecFlags: set<string> := {"-codec:v", "-codec:a", "-vf", "-b:a"}

  /** The command-line words of a plan, flag before value. */
  function Flatten(plan: seq<Arg>): (words: seq<string>)
    ensures |words| == 2 * |plan|
    ensures forall i :: 0 <= i < |plan| ==> words[2 * i] == plan[i].flag && words[2 * i + 1] == plan[i].value
  {
    if plan == [] then [] else [plan[0].flag, plan[0].value] + Flatten(plan[1..])
  }

  /** The value of the first option in `plan` with flag `flag`. */
  function Lookup(plan: seq<Arg>, flag: string): (v: Option<string>)
    ensures v.None? <==> forall i :: 0 <= i < |plan| ==> plan[i].flag != flag
    ensures v.Some? ==> exists i :: 0 <= i < |plan| && plan[i] == Arg(flag, v.value) &&
                                   forall j :: 0 <= j < i ==> plan[j].flag != flag
  {
    if plan == [] then None
    else if plan[0].flag == flag then Some(plan[0].value)
    else Lookup(plan[1..], flag)
  }

  /** The words of two plans joined are the words of each, in order. */
  lemma {:induction false} FlattenAppend(p: seq<Arg>, q: seq<Arg>)
    ensures Flatten(p + q) == Flatten(p) + Flatten(q)
  {
    if p == [] {
      assert p + q == q;
    } else {
      assert (p + q)[0] == p[0];
      assert (p + q)[1..] == p[1..] + q;
      FlattenAppend(p[1..], q);
    }
  }

  /** Looking a flag up in two plans joined finds it in the first if it is
      there, and otherwise in the second. */
  lemma {:induction false} LookupAppend(p: seq<Arg>, q: seq<Arg>, flag: string)
    ensures Lookup(p + q, flag) == if Lookup(p, flag).Some? then Lookup(p, flag) else Lookup(q, flag)
  {
    if p == [] {
      assert p + q == q;
    } else {
      assert (p + q)[0] == p[0];
      assert (p + q)[1..] == p[1..] + q;
      LookupAppend(p[1..], q, flag);
    }
  }

  /** A row of the video table: the video and audio encoders, and whether the
      quality may ask for a scale filter. */
  datatype VideoProfile = VideoProfile(videoCodec: string, audioCodec: string, scalable: bool)

  /** A row of the audio table: the audio encoder, and whether the quality is
      passed on as its bitrate. */
  datatype AudioProfile = AudioProfile(audioCodec: string, takesBitrate: bool)

  /** The video table; it has a row for exactly the registry's video formats,
      and only mp4 and mkv may be scaled. */
  function VideoProfileOf(format: string): (p: Option<VideoProfile>)
    ensures p.Some? <==> format in VideoFormats()
    ensures p.Some? ==> (p.value.scalable <==> format == "mp4" || format == "mkv")
  {
    match format
    case "mp4" => Some(VideoProfile("libx264", "aac", true))
    case "mkv" => Some(VideoProfile("libx264", "aac", true))
    case "avi" => Some(VideoProfile("libxvid", "libmp3lame", false))
    case "mov" => Some(VideoProfile("libx264", "aac", false))
    case "webm" => Some(VideoProfile("libvpx-vp9", "libopus", false))
    case "flv" => Some(VideoProfile("libx264", "aac", false))
    case "wmv" => Some(VideoProfile("wmv2", "wmav2", false))
    case "m4v" => Some(VideoProfile("libx264", "aac", false))
    case _ => None
  }

  /** The audio table; it has a row for exactly the registry's audio formats,
      and all but wav and flac take the quality as bitrate. */
  function AudioProfileOf(format: string): (p: Option<AudioProfile>)
    ensures p.Some? <==> format in AudioFormats()
    ensures p.Some? ==> (p.value.takesBitrate <==> format != "wav" && format != "flac")
  {
    match format
    case "mp3" => Some(AudioProfile("libmp3lame", true))
    case "wav" => Some(AudioProfile("pcm_s16le", false))
    case "flac" => Some(AudioProfile("flac", false))
    case "aac" => Some(AudioProfile("aac", true))
    case "m4a" => Some(AudioProfile("aac", true))
    case "ogg" => Some(AudioProfile("libvorbis", true))
    case "wma" => Some(AudioProfile("wmav2", true))
    case _ => None
  }

  /** When the quality asks for scaling: it is not the default and it ends in
      'p'; the height is the quality with every trailing 'p' removed. */
  function ScaleHeight(quality: string): (h: Option<string>)
    ensures h.Some? <==> quality != DefaultQuality && EndsWith(quality, 'p')
    ensures h.Some? ==> h.value <= quality && !EndsWith(h.value, 'p')
    ensures h.Some? ==> forall i :: |h.value| <= i < |quality| ==> quality[i] == 'p'
  {
    if quality != DefaultQuality && EndsWith(quality, 'p') then Some(RStrip(quality, 'p')) else None
  }

  function ScaleFilter(height: string): string {
    "scale=-2:" + height
  }

  /** The options for a video target: encoders, an optional scale filter, and
      the fixed audio bitrate last. */
  function VideoPlan(p: VideoProfile, quality: string): (plan: seq<Arg>)
    ensures 3 <= |plan| <= 4
    ensures plan[..2] == [Arg("-codec:v", p.videoCodec), Arg("-codec:a", p.audioCodec)]
    ensures plan[|plan| - 1] == Arg("-b:a", VideoAudioBitrate)
    ensures |plan| == 4 <==> p.scalable && ScaleHeight(quality).Some?
    ensures |plan| == 4 ==> plan[2] == Arg("-vf", ScaleFilter(ScaleHeight(quality).value))
  {
    var scale := if p.scalable && ScaleHeight(quality).Some?
                 then [Arg("-vf", ScaleFilter(ScaleHeight(quality).value))] else [];
    [Arg("-codec:v", p.videoCodec), Arg("-codec:a", p.audioCodec)] + scale + [Arg("-b:a", VideoAudioBitrate)]
  }

  lemma VideoPlanWords(p: VideoProfile, quality: string)
    ensures Flatten(VideoPlan(p, quality)) ==
      ["-codec:v", p.videoCodec, "-codec:a", p.audioCodec]
      + (if p.scalable && ScaleHeight(quality).Some? then ["-vf", ScaleFilter(ScaleHeight(quality).value)] else [])
      + ["-b:a", VideoAudioBitrate]
  {
    var scale := if p.scalable && ScaleHeight(quality).Some?
                 then [Arg("-vf", ScaleFilter(ScaleHeight(quality).value))] else [];
    var head := [Arg("-codec:v", p.videoCodec), Arg("-codec:a", p.audioCodec)];
    var tail := [Arg("-b:a", VideoAudioBitrate)];
    FlattenAppend(head + scale, tail);
    FlattenAppend(head, scale);
    assert Flatten(head) == ["-codec:v", p.videoCodec, "-codec:a", p.audioCodec];
  }

  /** The options for an audio target: the encoder, then the quality as bitrate
      where the table says so. */
  function AudioPlan(p: AudioProfile, quality: string): (plan: seq<Arg>)
    ensures 1 <= |plan| <= 2 && plan[0] == Arg("-codec:a", p.audioCodec)
    ensures |plan| == 2 <==> p.takesBitrate
    ensures |plan| == 2 ==> plan[1] == Arg("-b:a", quality)
  {
    [Arg("-codec:a", p.audioCodec)] + (if p.takesBitrate then [Arg("-b:a", quality)] else [])
  }

  lemma AudioPlanWords(p: AudioProfile, quality: string)
    ensures Flatten(AudioPlan(p, quality)) ==
      ["-codec:a", p.audioCodec] + (if p.takesBitrate then ["-b:a", quality] else [])
  {
    FlattenAppend([Arg("-codec:a", p.audioCodec)], if p.takesBitrate then [Arg("-b:a", quality)] else []);
  }

  /** The codec plan for an output format (compared lower-cased) and a quality.
      It never repeats a flag, uses only the four codec flags, and is empty
      exactly for a format outside the registry. */
  function ResolvePlan(outputFormat: string, quality: string): (plan: seq<Arg>)
    ensures forall i, j :: 0 <= i < j < |plan| ==> plan[i].flag != plan[j].flag
    ensures forall i :: 0 <= i < |plan| ==> plan[i].flag in CodecFlags
    ensures plan == [] <==> Lower(outputFormat) !in AllFormats()
  {
    var format := Lower(outputFormat);
    match VideoProfileOf(format)
    case Some(v) => VideoPlan(v, quality)
    case None =>
      match AudioProfileOf(format)
      case Some(a) => AudioPlan(a, quality)
      case None => []
  }

  /** The whole ffmpeg command: the input, the plan's options, then forced
      overwrite of the output. */
  function FullCommand(inputFile: string, outputFile: string, outputFormat: string, quality: string): (cmd: seq<string>)
    ensures |cmd| == 5 + 2 * |ResolvePlan(outputFormat, quality)|
    ensures cmd[..3] == ["ffmpeg", "-i", inputFile]
    ensures cmd[|cmd| - 2..] == ["-y", outputFile]
    ensures Lower(outputFormat) !in AllFormats() ==> cmd == ["ffmpeg", "-i", inputFile, "-y", outputFile]
  {
    ["ffmpeg", "-i", inputFile] + Flatten(ResolvePlan(outputFormat, quality)) + ["-y", outputFile]
  }

  /** The command as convert_media builds it: start with the input, extend it
      with the video or the audio options, end with the overwrite flag and the
      output. */
  method BuildCommand(inputFile: string, outputFile: string, outputFormat: string, quality: string)
    returns (cmd: seq<string>)
    ensures cmd == FullCommand(inputFile, outputFile, outputFormat, quality)
    ensures |cmd| >= 5 && cmd[..3] == ["ffmpeg", "-i", inputFile]
    ensures cmd[|cmd| - 2..] == ["-y", outputFile]
    ensures cmd[3..|cmd| - 2] == Flatten(ResolvePlan(outputFormat, quality))
  {
    var format := Lower(outputFormat);
    var outputIsVideo := format in VideoFormats();
    cmd := ["ffmpeg", "-i", inputFile];
    if outputIsVideo {
      cmd := ExtendVideoOptions(cmd, format, quality);
    } else {
      cmd := ExtendAudioOptions(cmd, format, quality);
    }
    cmd := cmd + ["-y", outputFile];
  }

  /** The video branch of convert_media: encoders per format, a scale filter
      for mp4 and mkv, then the fixed audio bitrate. */
  method ExtendVideoOptions(cmd0: seq<string>, format: string, quality: string) returns (cmd: seq<string>)
    requires format in VideoFormats()
    ensures cmd == cmd0 + Flatten(VideoPlan(VideoProfileOf(format).value, quality))
  {
    ghost var row := VideoProfileOf(format).value;
    VideoPlanWords(row, quality);
    cmd := cmd0;
    if format == "mp4" {
      cmd := cmd + ["-codec:v", "libx264", "-codec:a", "aac"];
      if quality != DefaultQuality {
        if EndsWith(quality, 'p') {
          var height := RStrip(quality, 'p');
          cmd := cmd + ["-vf", ScaleFilter(height)];
        }
      }
    } else if format == "mkv" {
      cmd := cmd + ["-codec:v", "libx264", "-codec:a", "aac"];
      if quality != DefaultQuality && EndsWith(quality, 'p') {
        var height := RStrip(quality, 'p');
        cmd := cmd + ["-vf", ScaleFilter(height)];
      }
    } else if format == "avi" {
      cmd := cmd + ["-codec:v", "libxvid", "-codec:a", "libmp3lame"];
    } else if format == "mov" {
      cmd := cmd + ["-codec:v", "libx264", "-codec:a", "aac"];
    } else if format == "webm" {
      cmd := cmd + ["-codec:v", "libvpx-vp9", "-codec:a", "libopus"];
    } else if format == "flv" {
      cmd := cmd + ["-codec:v", "libx264", "-codec:a", "aac"];
    } else if format == "wmv" {
      cmd := cmd + ["-codec:v", "wmv2", "-codec:a", "wmav2"];
    } else if format == "m4v" {
      cmd := cmd + ["-codec:v", "libx264", "-codec:a", "aac"];
    }
    cmd := cmd + ["-b:a", VideoAudioBitrate];
  }

  /** The audio branch of convert_media: the encoder per format, with the
      quality as bitrate for all but wav and flac; nothing for an unknown format. */
  method ExtendAudioOptions(cmd0: seq<string>, format: string, quality: string) returns (cmd: seq<string>)
    ensures AudioProfileOf(format).Some? ==> cmd == cmd0 + Flatten(AudioPlan(AudioProfileOf(format).value, quality))
    ensures AudioProfileOf(format).None? ==> cmd == cmd0
  {
    if AudioProfileOf(format).Some? {
      AudioPlanWords(AudioProfileOf(format).value, quality);
    }
    cmd := cmd0;
    if format == "mp3" {
      cmd := cmd + ["-codec:a", "libmp3lame", "-b:a", quality];
    } else if format == "wav" {
      cmd := cmd + ["-codec:a", "pcm_s16le"];
    } else if format == "flac" {
      cmd := cmd + ["-codec:a", "flac"];
    } else if format == "aac" {
      cmd := cmd + ["-codec:a", "aac", "-b:a", quality];
    } else if format == "m4a" {
      cmd := cmd + ["-codec:a", "aac", "-b:a", quality];
    } else if format == "ogg" {
      cmd := cmd + ["-codec:a", "libvorbis", "-b:a", quality];
    } else if format == "wma" {
      cmd := cmd + ["-codec:a", "wmav2", "-b:a", quality];
    }
  }

  /** In a plan that never repeats a flag, looking up the flag of any option
      gives that option's value. */
  lemma LookupDistinct(plan: seq<Arg>, k: nat)
    requires forall i, j :: 0 <= i < j < |plan| ==> plan[i].flag != plan[j].flag
    requires k < |plan|
    ensures Lookup(plan, plan[k].flag) == Some(plan[k].value)
  {
    var v := Lookup(plan, plan[k].flag);
    var i :| 0 <= i < |plan| && plan[i] == Arg(plan[k].flag, v.value);
    assert i == k;
  }

  /** Every video target gets the audio bitrate 128k as its last option,
      whatever the quality. */
  lemma VideoTargetFixedAudioBitrate(outputFormat: string, quality: string)
    requires Lower(outputFormat) in VideoFormats()
    ensures var plan := ResolvePlan(outputFormat, quality);
      && plan != []
      && plan[|plan| - 1] == Arg("-b:a", VideoAudioBitrate)
      && Lookup(plan, "-b:a") == Some(VideoAudioBitrate)
  {
    var plan := ResolvePlan(outputFormat, quality);
    LookupDistinct(plan, |plan| - 1);
  }

  /** A scale filter appears exactly for mp4 and mkv with a quality other than
      the default that ends in 'p'; its height is the quality with every
      trailing 'p' stripped. */
  lemma ScaleFilterRule(outputFormat: string, quality: string)
    ensures var format := Lower(outputFormat);
      Lookup(ResolvePlan(outputFormat, quality), "-vf") ==
        if (format == "mp4" || format == "mkv") && quality != DefaultQuality && EndsWith(quality, 'p')
        then Some(ScaleFilter(RStrip(quality, 'p')))
        else None
  {
    var plan := ResolvePlan(outputFormat, quality);
    var format := Lower(outputFormat);
    if VideoProfileOf(format).Some? && |plan| == 4 {
      LookupDistinct(plan, 2);
    }
  }

  /** For an audio target there is no video option; mp3, aac, m4a, ogg and wma
      pass the quality through verbatim as the bitrate, wav and flac get no
      bitrate at all. */
  lemma AudioTargetRule(outputFormat: string, quality: string)
    requires Lower(outputFormat) in AudioFormats()
    ensures var format := Lower(outputFormat);
      var plan := ResolvePlan(outputFormat, quality);
      && Lookup(plan, "-codec:v") == None
      && Lookup(plan, "-vf") == None
      && Lookup(plan, "-codec:a") == Some(AudioProfileOf(format).value.audioCodec)
      && Lookup(plan, "-b:a") == if format == "wav" || format == "flac" then None else Some(quality)
  {
    var plan := ResolvePlan(outputFormat, quality);
    FormatListsDisjoint();
    LookupDistinct(plan, 0);
    if |plan| == 2 {
      LookupDistinct(plan, 1);
    }
  }

  /** The quality affects a video plan only through the scale filter: the
      other six video formats ignore it entirely. */
  lemma VideoPlanIgnoresQuality(outputFormat: string, q1: string, q2: string)
    requires Lower(outputFormat) in VideoFormats()
    requires Lower(outputFormat) != "mp4" && Lower(outputFormat) != "mkv"
    ensures ResolvePlan(outputFormat, q1) == ResolvePlan(outputFormat, q2)
  {
  }

  /** The output format is compared lower-cased: every registry token is
      already lower-case, so the format chosen on the command line selects its
      own row. */
  lemma LowerOfRegistryFormat(format: string)
    requires format in AllFormats()
    ensures Lower(format) == format
  {
    RegistryFormatIsToken(format);
    assert forall i :: 0 <= i < |format| ==> !IsUpper(format[i]);
  }

  /** "clip.mov" converted to webm: VP9 video, Opus audio, no scale filter,
      the 128k audio bitrate appended. */
  lemma WebmPlan(outputFormat: string, quality: string)
    requires outputFormat == "webm"
    ensures ResolvePlan(outputFormat, quality) ==
      [Arg("-codec:v", "libvpx-vp9"), Arg("-codec:a", "libopus"), Arg("-b:a", "128k")]
  {
    LowerOfRegistryFormat(outputFormat);
  }

  /** mp4 at "720p" is scaled to height 720; mp4 at the default quality is not. */
  lemma Mp4ScaleExamples(outputFormat: string, quality: string)
    requires outputFormat == "mp4"
    requires quality == "720p" || quality == DefaultQuality
    ensures Lookup(ResolvePlan(outputFormat, quality), "-vf") ==
      if quality == "720p" then Some("scale=-2:720") else None
  {
    LowerOfRegistryFormat(outputFormat);
    ScaleFilterRule(outputFormat, quality);
    if quality == "720p" {
      assert quality == "720" + "p";
      assert RStrip(quality, 'p') == "720";
      assert quality != DefaultQuality && EndsWith(quality, 'p');
      assert ScaleFilter("720") == "scale=-2:720";
    }
  }
}
