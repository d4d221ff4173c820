# x2y conversion decisions, modelled in Dafny

x2y is a command-line wrapper around FFmpeg. It converts audio and video files
between fifteen formats. All transcoding is done by the external `ffmpeg`
binary. The tool itself only makes decisions, and these are what this project
models:

- **Format registry.** Seven audio formats and eight video formats, in a fixed
  order. The list of all formats is the audio list followed by the video list.
- **Extension classifier** (`is_video_format`). It takes the last suffix of
  the path's final component, lower-cases it and strips the dot. The path is
  video when the result is a video format or one of nine legacy video
  extensions.
- **Media-type detection** (`detect_media_type`). It reads the `codec_type`
  of each stream that ffprobe reports. The result is video if any stream is
  video, else audio if any stream is audio, else unknown. If probing fails,
  the extension decides, and anything that is not video counts as audio.
  The probe's outcome is an input of the model.
- **Codec plan and command** (`convert_media`). The output format, compared
  lower-cased, selects a row of the video table or of the audio table. The
  row gives the ffmpeg encoder options. For mp4 and mkv, a quality ending in
  'p' becomes a scale filter. Video targets always get audio bitrate 128k.
  Five audio targets take the quality as their bitrate. The command is
  `ffmpeg -i <input> <options> -y <output>`.
- **Default output path** (`main`). When no output is given, the output is
  `Path(input).with_suffix('.' + format)`.

Layout, one module per file:

- `wrappers.dfy`: Option and Result.
- `text.dfy`: the `str` operations the code uses.
- `formats.dfy`: the registry.
- `paths.dfy`: pathlib's `name`, `suffix`, `stem` and `with_suffix`.
- `detection.dfy`: the classifier and the detector.
- `codec.dfy`: the plan and the command.
- `cli.dfy`: the output path and `convert_media`.

The codec plan is a sequence of `Arg(flag, value)` pairs. `ResolvePlan`
gives it as a table lookup keyed by format. `BuildCommand` builds the command
list step by step, with the same if/elif chain as the source. Its video
branch is `ExtendVideoOptions` and its audio branch is `ExtendAudioOptions`.
All three are proved to produce the table's plan.

## Model

| member | source | states |
|---|---|---|
| `Formats.AudioFormats` | run.py:24-26 | the seven audio formats, none listed twice |
| `Formats.VideoFormats` | run.py:29-31 | the eight video formats, none listed twice |
| `Formats.AllFormats` | run.py:34-36 | the list of all formats is the audio list then the video list, in order, nothing dropped, and it contains exactly the formats of either list |
| `Formats.FormatListsDisjoint` | run.py:24-31 | no format is both audio and video |
| `Formats.AllFormatsWellFormed` | run.py:24-36 | no format is listed twice; every format is a non-empty lower-case ASCII token |
| `Text.Lower` | run.py:42 | `lower()`: same length, each upper-case letter replaced by its lower-case letter, no upper-case letter left, other characters unchanged, dots kept |
| `Text.RStrip` | run.py:104 | `rstrip('p')`: the longest prefix not ending in the character; everything removed is that character |
| `Text.LStrip` | run.py:42 | `lstrip('.')`: the longest suffix not starting with the character; everything removed is that character |
| `Text.RFind` | run.py:42 | the index of the last occurrence, or -1 when there is none (pathlib uses it to locate the suffix) |
| `Paths.DirPrefix` | run.py:229-230 | the directory part of a path is a prefix that is empty or ends in '/' |
| `Paths.Name` | run.py:42 | the final component holds no '/' and completes the directory prefix to the whole path |
| `Paths.Suffix` | run.py:42 | the suffix is empty or is a tail of the name: one dot plus at least one character, no further dot, shorter than the name |
| `Paths.SuffixEmptyCases` | run.py:42 | a name has no suffix exactly when it has no dot, its only dot is the first character, or it ends in a dot |
| `Paths.Stem` | run.py:230 | stem followed by suffix is the name; the stem is non-empty for a non-empty name |
| `Paths.WithSuffix` | run.py:230 | `with_suffix` fails exactly for an invalid suffix or an empty final component; otherwise it gives directory + stem + new suffix |
| `Paths.WithSuffixRoundTrip` | run.py:229-230 | after re-suffixing, the directory and stem are kept and `suffix` returns exactly the new suffix |
| `Paths.SuffixOfResuffixed` | run.py:230 | a non-empty stem followed by a simple suffix has that suffix and that stem |
| `Detection.Extension` | run.py:42 | the extension is the lower-cased suffix without its one dot, or empty when there is no suffix |
| `Detection.IsVideoFormat` | run.py:39-43 | `is_video_format`: the extension is a video format or a legacy video extension; a path without a suffix is never video |
| `Detection.IsVideoFormatRule` | run.py:39-43 | video by extension exactly when a suffix exists and its lowered text after the dot is a video format or a legacy video extension |
| `Detection.EmptyIsNoVideoExtension` | run.py:41 | no video extension is empty, so a path without a suffix is never video |
| `Detection.VideoExtensionsAreTokens` | run.py:41 | every video extension is a lower-case ASCII token |
| `Detection.ResuffixedPathIsVideo` | run.py:39-43 | any path whose final component is a stem, a dot and a video extension is video, in any directory |
| `Detection.AnyCodecType` | run.py:55-56 | `any(...)` holds exactly when some stream's codec type is the one asked for |
| `Detection.ClassifyStreams` | run.py:55-63 | video exactly when some stream is video (even with audio present); audio exactly when no stream is video and one is audio; unknown otherwise |
| `Detection.FallbackKind` | run.py:64-69 | the fallback is never unknown; it is video exactly when the extension classifier says so |
| `Detection.DetectMediaType` | run.py:46-69 | a successful probe is classified by its streams; any failed probe falls back to the extension and never gives unknown |
| `Detection.DetectMediaTypeAsWritten` | run.py:48-69 | as written, an error escapes exactly when the probe process fails; unparsable output falls back; streams are classified |
| `Detection.AsWrittenDiffersOnlyOnProcessFailure` | run.py:48-69 | the code as written and the intended detector agree except on a failed probe process |
| `Detection.ProcessFailureSkipsFallback` | run.py:48-69 | for "clip.mov" with a failed probe, the code as written raises, while the intended fallback gives video |
| `Codec.Flatten` | run.py:96-145 | a plan flattens to twice as many words, each flag right before its value |
| `Codec.Lookup` | run.py:96-145 | the value found for a flag is that of the first option with that flag; nothing is found exactly when no option has the flag |
| `Codec.LookupAppend` | run.py:96-145 | a lookup in two joined plans checks the first plan, then the second |
| `Codec.VideoProfileOf` | run.py:98-122 | the video table has a row for exactly the registry's video formats, and only mp4 and mkv rows may scale |
| `Codec.AudioProfileOf` | run.py:127-142 | the audio table has a row for exactly the registry's audio formats; all but wav and flac take the quality as bitrate |
| `Codec.ScaleHeight` | run.py:102-104 | scaling applies exactly when the quality is not "192k" and ends in 'p'; the height is the quality minus all its trailing 'p's |
| `Codec.VideoPlan` | run.py:99-125 | a video plan: video and audio encoders first, then an optional scale filter (only for scalable rows whose quality asks for it), then bitrate 128k last |
| `Codec.AudioPlan` | run.py:127-142 | an audio plan: the encoder, then the quality as bitrate exactly when the row takes one |
| `Codec.ResolvePlan` | run.py:89-142 | a plan never repeats a flag, uses only the four codec flags, and is empty exactly for a format (lower-cased) outside the registry |
| `Codec.FullCommand` | run.py:96-145 | the command starts with `ffmpeg -i <input>`, ends with `-y <output>`, holds two words per plan option between, and is just those five words for a format outside the registry |
| `Codec.BuildCommand` | run.py:96-145 | the step-by-step command is `ffmpeg -i <input>`, then the table's plan, then `-y <output>` |
| `Codec.ExtendVideoOptions` | run.py:98-125 | the video if/elif chain appends exactly the video table's plan for the format |
| `Codec.ExtendAudioOptions` | run.py:127-142 | the audio if/elif chain appends the audio table's plan for the format, or nothing for a format outside the table |
| `Codec.LookupDistinct` | run.py:96-145 | in a plan without a repeated flag, the lookup of an option's flag gives that option's value |
| `Codec.VideoTargetFixedAudioBitrate` | run.py:124-125 | every video target ends with `-b:a 128k`, whatever the quality |
| `Codec.ScaleFilterRule` | run.py:100-110 | `-vf scale=-2:H` appears exactly for mp4/mkv with quality not "192k" and ending in 'p'; H is the quality with all trailing 'p's removed |
| `Codec.AudioTargetRule` | run.py:127-142 | audio targets have no video codec and no filter; the audio codec comes from the table; the bitrate is the quality verbatim except for wav and flac, which have none |
| `Codec.VideoPlanIgnoresQuality` | run.py:111-122 | for avi, mov, webm, flv, wmv and m4v the plan is the same for every quality |
| `Codec.LowerOfRegistryFormat` | run.py:223 | lower-casing a registry format leaves it unchanged, so the chosen format selects its own table row |
| `Codec.WebmPlan` | run.py:115-125 | webm gives VP9 video, Opus audio, no scale filter and bitrate 128k |
| `Codec.Mp4ScaleExamples` | run.py:100-105 | mp4 at "720p" gets `scale=-2:720`; mp4 at "192k" gets no scale filter |
| `Cli.DefaultOutputPath` | run.py:229-230 | the default output fails exactly for an empty format, a format holding '/', or an empty final component; otherwise it is the input's directory and stem, then '.' and the format |
| `Cli.DefaultOutputPathRule` | run.py:229-230 | for a registry format, the default output keeps the input's directory and stem and ends in '.' plus the format; it fails only for an empty final component |
| `Cli.PlainNameOutput` | run.py:229-230 | a file name without a directory, stem plus a simple suffix, gets exactly that stem plus '.' and the format (so "song.flac" with mp3 gives "song.mp3") |
| `Cli.OutputFile` | run.py:226-230 | a non-empty `--output` is used as given; otherwise the result is the input's directory and stem followed by '.' and the format, and it fails only for an empty final component; a successful result is never empty |
| `Cli.ConvertMedia` | run.py:82-96 | a missing input stops the conversion; otherwise the detected kind is reported and the command is the full command, which does not depend on the probe (intended detector) |
| `Cli.ConvertMediaAsWritten` | run.py:82-96 | as written, the conversion stops with the detector's error exactly when the input exists and the probe process fails; in every other case it gives what `ConvertMedia` gives |

## Findings

| source | as written | input that shows it | evidently intended | confidence | as-written member | corrected member |
|---|---|---|---|---|---|---|
| run.py:48-69 | `import json` runs inside the `try`, after the probe, which makes `json` a local name of the function. When ffprobe is missing or exits non-zero, `subprocess.run` raises before that import. Evaluating `json.JSONDecodeError` in the `except` clause then raises `UnboundLocalError`. So the extension fallback only runs for unparsable output, and the error escapes through `convert_media` and `main`. | a failing probe process (`ProbeProcessFailed`) for any input, e.g. "clip.mov" (`Detection.ProcessFailureSkipsFallback`) | every failed probe falls back to the extension classifier and never gives unknown | high; not executed | `Detection.DetectMediaTypeAsWritten` | `Detection.DetectMediaType` |

`Cli.ConvertMediaAsWritten` carries the error through `convert_media` as written. `Cli.ConvertMedia` uses the corrected detector.

## Left out

- Checking that ffmpeg is installed (`check_ffmpeg`, run.py:14-21): external process I/O.
- Running ffprobe and ffmpeg (run.py:49-50, 147-156): external process I/O. The probe's outcome is an input (`ProbeResult`), and the model stops at the command list.
- Success or failure of the ffmpeg run, and its error text (run.py:147-156): these depend on the external process.
- JSON parsing of the probe output (run.py:52-53): a library call. The model starts from the parsed list of codec types or from "unparsable". Output that parses but is not an object (where `data.get` would raise) is not modelled.
- Stream entries whose `codec_type` is not a string: these compare unequal to "video" and "audio", just like a missing entry, so they are `None` in the model.
- `os.path.exists`, `os.path.getsize` and the size report in MB (run.py:82-84, 237-240): filesystem I/O and floating point. Whether the input exists is an input of `Cli.ConvertMedia`.
- argparse, `--list-formats` printing, installation hints and `sys.exit` (run.py:159-220, 235-242): CLI glue. `Cli.OutputFile` takes the format as one of the registry's choices, as argparse guarantees.
- All printed status messages, including the detected type (run.py:92-93).
- Text.Lower: only ASCII letters are lower-cased. Python's Unicode case mapping is not modelled.
- Paths: pathlib's normalisation is not modelled. A trailing '/', repeated '/', '.' components and a leading "./" are removed by pathlib but kept by the model. The model splits the path at its last '/', and Windows separators are not modelled.
