/**
 * The conversion entry points: the output path the command line derives when
 * none is given, and convert_media up to the ffmpeg command it would run.
 */
module Cli {
  import opened Wrappers
  import opened Text
  import opened Formats
  import opened Paths
  import opened Detection
  import opened Codec

  /** `str(Path(inputFile).with_suffix('.' + outputFormat))`: it fails exactly
      when the format is empty or holds a '/', or the input's final component
      is empty; otherwise it is the input's directory and stem followed by '.'
      and the format. */
  function DefaultOutputPath(inputFile: string, outputFormat: string): (r: Result<string, PathError>)
    ensures r.Failure? <==> outputFormat == [] || !Lacks(outputFormat, '/') || Name(inputFile) == []
    ensures r.Success? ==> r.value == DirPrefix(inputFile) + (Stem(Name(inputFile)) + ("." + outputFormat))
  {
    var suffix := "." + outputFormat;
    assert Lacks(suffix, '/') <==> Lacks(outputFormat, '/') by {
      assert forall k :: 0 <= k < |outputFormat| ==> suffix[k + 1] == outputFormat[k];
    }
    assert suffix == "." <==> outputFormat == [];
    WithSuffix(inputFile, suffix)
  }

  /** For a registry format, the default output keeps the input's directory and
      stem and ends in '.' and the format; it fails only for an input whose
      final component is empty. */
  lemma {:induction false} DefaultOutputPathRule(inputFile: string, outputFormat: string)
    requires outputFormat in AllFormats()
    ensures Name(inputFile) == [] ==> DefaultOutputPath(inputFile, outputFormat) == Failure(EmptyName)
    ensures Name(inputFile) != [] ==>
      var r := DefaultOutputPath(inputFile, outputFormat);
      && r.Success?
      && DirPrefix(r.value) == DirPrefix(inputFile)
      && Name(r.value) == Stem(Name(inputFile)) + ("." + outputFormat)
      && Suffix(Name(r.value)) == "." + outputFormat
      && Stem(Name(r.value)) == Stem(Name(inputFile))
  {
    RegistryFormatIsToken(outputFormat);
    var suffix := "." + outputFormat;
    TokenSuffix(outputFormat);
    assert suffix != "." && suffix[0] == '.';
    if Name(inputFile) != [] {
      WithSuffixRoundTrip(inputFile, suffix);
    }
  }

  /** A file name without a directory, made of a stem and a simple suffix, gets
      the same stem with the format as its new suffix: "song.flac" converted to
      mp3 is written to "song.mp3". */
  lemma PlainNameOutput(stem: string, oldSuffix: string, outputFormat: string)
    requires stem != [] && Lacks(stem, '/')
    requires IsSimpleSuffix(oldSuffix)
    requires outputFormat in AllFormats()
    ensures DefaultOutputPath(stem + oldSuffix, outputFormat) == Success(stem + ("." + outputFormat))
  {
    var name := stem + oldSuffix;
    assert DirPrefix(name) == [] && Name(name) == name by {
      LacksJoin(stem, oldSuffix, '/');
      assert [] + name == name;
      SplitOfJoin([], name);
    }
    assert Stem(name) == stem by {
      SuffixOfResuffixed(stem, oldSuffix);
    }
    var suffix := "." + outputFormat;
    assert suffix != "." && suffix[0] == '.' && Lacks(suffix, '/') by {
      RegistryFormatIsToken(outputFormat);
      TokenSuffix(outputFormat);
    }
    assert WithSuffix(name, suffix) == Success(DirPrefix(name) + (Stem(Name(name)) + suffix));
    assert DirPrefix(name) + (Stem(Name(name)) + suffix) == stem + suffix;
  }

  /** The output file of main: an explicit, non-empty `--output` is used as it
      is; otherwise the default path is derived, which fails only for an input
      with an empty final component. */
  function OutputFile(output: Option<string>, inputFile: string, outputFormat: string): (r: Result<string, PathError>)
    requires outputFormat in AllFormats()
    ensures output.Some? && output.value != [] ==> r == Success(output.value)
    ensures r.Failure? <==> (output.None? || output.value == []) && Name(inputFile) == []
    ensures (output.None? || output.value == []) && r.Success? ==>
      r.value == DirPrefix(inputFile) + (Stem(Name(inputFile)) + ("." + outputFormat))
    ensures r.Success? ==> r.value != []
  {
    DefaultOutputPathRule(inputFile, outputFormat);
    if output.Some? && output.value != [] then Success(output.value)
    else DefaultOutputPath(inputFile, outputFormat)
  }

  /** What convert_media does before running ffmpeg: stop when the input does
      not exist, otherwise detect the input's kind (only reported) and build the
      command. */
  datatype Conversion =
    | InputNotFound
    | Invoke(detected: MediaKind, command: seq<string>)

  /** convert_media up to the ffmpeg invocation, with whether the input exists
      and the probe's outcome given. The command depends only on the paths, the
      format and the quality, never on what was detected. */
  method ConvertMedia(inputExists: bool, probe: ProbeResult, inputFile: string, outputFile: string,
                      outputFormat: string, quality: string) returns (c: Conversion)
    ensures !inputExists <==> c == InputNotFound
    ensures c.Invoke? ==> c.detected == DetectMediaType(inputFile, probe)
    ensures c.Invoke? ==> c.command == FullCommand(inputFile, outputFile, outputFormat, quality)
  {
    if !inputExists {
      return InputNotFound;
    }
    var mediaType := DetectMediaType(inputFile, probe);
    var cmd := BuildCommand(inputFile, outputFile, outputFormat, quality);
    c := Invoke(mediaType, cmd);
  }

  /** convert_media as written, calling the detector as written: when the input
      exists and the probe process fails, the detector's error escapes and no
      command is built. In every other case it does what the intended
      ConvertMedia does. */
  method ConvertMediaAsWritten(inputExists: bool, probe: ProbeResult, inputFile: string, outputFile: string,
                               outputFormat: string, quality: string) returns (r: Result<Conversion, DetectError>)
    ensures r.Failure? <==> inputExists && probe == ProbeProcessFailed
    ensures !inputExists ==> r == Success(InputNotFound)
    ensures inputExists && probe != ProbeProcessFailed ==>
      r == Success(Invoke(DetectMediaType(inputFile, probe), FullCommand(inputFile, outputFile, outputFormat, quality)))
  {
    if !inputExists {
      return Success(InputNotFound);
    }
    var detected := DetectMediaTypeAsWritten(inputFile, probe);
    if detected.Failure? {
      return Failure(detected.error);
    }
    AsWrittenDiffersOnlyOnProcessFailure(inputFile, probe);
    var cmd := BuildCommand(inputFile, outputFile, outputFormat, quality);
    r := Success(Invoke(detected.value, cmd));
  }
}
