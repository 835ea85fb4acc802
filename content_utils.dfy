/**
 * The encoder adapter and the stored-field resolver of the `content` app:
 * the ffmpeg command lines, the runs of the external encoder and frame
 * grabber (given as parameters: what the external program does with a
 * command line), and the lookup of a rendition's manifest and segments
 * through the manifest name stored on the Video row.
 */
module ContentUtils {
  import opened Wrappers
  import opened Text
  import opened Paths
  import opened ContentModels
  import Storage

  /** What one run of an external program did: its exit status and the files it wrote. */
  datatype ProcessRun = ProcessRun(exitStatus: int, written: set<string>)

  /**
   * The two ffmpeg invocations of the encoder adapter, by their arguments;
   * `Argv` spells out the command line of each.
   */
  datatype Command =
    | Transcode(input: string, output: string, height: nat)
    | Segment(input: string, outputDir: string, height: nat)

  /**
   * An external program, given by what each command does; a command outside
   * the table exits with status 1 and writes nothing.
   */
  datatype Program = Program(outcomes: map<Command, ProcessRun>) {
    function Run(cmd: Command): ProcessRun {
      if cmd in outcomes then outcomes[cmd] else ProcessRun(1, {})
    }
  }

  /**
   * The exceptions that end a conversion: `CalledProcessError` from
   * `check=True`, carrying the command whose command line is `Argv(cmd)`, or a
   * failed frame grab.
   */
  datatype JobError =
    | CalledProcessError(returnCode: int, cmd: Command)
    | ThumbnailError(input: string)

  const PlaylistName: string := "index.m3u8"
  /** ffmpeg's numbered segment pattern: 000.ts, 001.ts, ... */
  const SegmentPattern: string := "%03d.ts"
  /** Target segment duration in seconds. */
  const SegmentSeconds: string := "10"

  /** The video filter: scale to `height` lines, width chosen to keep the aspect ratio and even. */
  function ScaleFilter(height: nat): string {
    "scale=-2:" + NatToString(height)
  }

  /** The value ffmpeg reads for `flag` from a list of option/value pairs (first occurrence). */
  function OptionOf(pairs: seq<string>, flag: string): Option<string>
    decreases |pairs|
  {
    if |pairs| < 2 then None
    else if pairs[0] == flag then Some(pairs[1])
    else OptionOf(pairs[2..], flag)
  }

  /** The option pairs laid out on the command line, flag before value. */
  function Flatten(pairs: seq<(string, string)>): (flat: seq<string>)
    ensures |flat| == 2 * |pairs|
  {
    if pairs == [] then [] else [pairs[0].0, pairs[0].1] + Flatten(pairs[1..])
  }

  /** The value of the first pair whose flag is `flag`. */
  function Lookup(pairs: seq<(string, string)>, flag: string): Option<string> {
    if pairs == [] then None
    else if pairs[0].0 == flag then Some(pairs[0].1)
    else Lookup(pairs[1..], flag)
  }

  /** What ffmpeg reads from the laid-out pairs is the value of the first pair with that flag. */
  lemma {:induction false} OptionOfFlatten(pairs: seq<(string, string)>, flag: string)
    ensures OptionOf(Flatten(pairs), flag) == Lookup(pairs, flag)
  {
    if pairs != [] {
      var flat := Flatten(pairs);
      assert flat[2..] == Flatten(pairs[1..]);
      OptionOfFlatten(pairs[1..], flag);
    }
  }

  /** The pair at index `k` decides the lookup when no earlier pair has its flag. */
  lemma {:induction false} LookupAt(pairs: seq<(string, string)>, k: nat, flag: string)
    requires k < |pairs| && pairs[k].0 == flag
    requires forall j | 0 <= j < k :: pairs[j].0 != flag
    ensures Lookup(pairs, flag) == Some(pairs[k].1)
  {
    if k > 0 {
      assert pairs[0].0 != flag;
      assert forall j | 0 <= j < k - 1 :: pairs[1..][j] == pairs[j + 1];
      LookupAt(pairs[1..], k - 1, flag);
    }
  }

  /** The value ffmpeg reads for the flag of the pair at index `k`, when no earlier pair has that flag. */
  lemma OptionAt(pairs: seq<(string, string)>, k: nat, flag: string)
    requires k < |pairs| && pairs[k].0 == flag
    requires forall j | 0 <= j < k :: pairs[j].0 != flag
    ensures OptionOf(Flatten(pairs), flag) == Some(pairs[k].1)
  {
    OptionOfFlatten(pairs, flag);
    LookupAt(pairs, k, flag);
  }

  /** A command line of the form `ffmpeg <flag value>... <output>`. */
  predicate FfmpegShape(argv: seq<string>) {
    |argv| >= 2 && argv[0] == "ffmpeg"
  }

  function Options(argv: seq<string>): seq<string>
    requires FfmpegShape(argv)
  {
    argv[1..|argv| - 1]
  }

  function OutputOf(argv: seq<string>): string
    requires FfmpegShape(argv)
  {
    argv[|argv| - 1]
  }

  /** The playlist `convert_video_to_hls` writes and returns: `index.m3u8` in the output directory. */
  function PlaylistPath(outputDir: string): (p: string)
    ensures Basename(p) == PlaylistName
  {
    PlaylistBasename(outputDir);
    Join(outputDir, PlaylistName)
  }

  lemma PlaylistNameIsName()
    ensures NoSlash(PlaylistName)
  {
  }

  lemma PlaylistBasename(outputDir: string)
    ensures Basename(Join(outputDir, PlaylistName)) == PlaylistName
  {
    BasenameOfJoin(outputDir, PlaylistName);
    PlaylistNameIsName();
  }

  /** The option pairs of a command, between the program name and the output. */
  function CommandOptions(cmd: Command): seq<(string, string)> {
    match cmd
    case Transcode(input, _, height) =>
      [
        ("-i", input),
        ("-vf", ScaleFilter(height)),
        ("-c:v", "libx264"),
        ("-crf", "23"),
        ("-preset", "fast"),
        ("-c:a", "aac"),
        ("-movflags", "+faststart")
      ]
    case Segment(input, outputDir, height) =>
      [
        ("-i", input),
        ("-vf", ScaleFilter(height)),
        ("-c:v", "libx264"),
        ("-crf", "23"),
        ("-preset", "fast"),
        ("-c:a", "aac"),
        ("-hls_time", SegmentSeconds),
        ("-hls_list_size", "0"),
        ("-hls_segment_filename", Join(outputDir, SegmentPattern))
      ]
  }

  /** The file a command writes last on its command line. */
  function CommandOutput(cmd: Command): string {
    match cmd
    case Transcode(_, output, _) => output
    case Segment(_, outputDir, _) => PlaylistPath(outputDir)
  }

  /** `ffmpeg`, the laid-out option pairs, then the output. */
  function CommandLine(pairs: seq<(string, string)>, output: string): (argv: seq<string>)
    ensures FfmpegShape(argv) && |argv| == 2 * |pairs| + 2
    ensures OutputOf(argv) == output && Options(argv) == Flatten(pairs)
  {
    var options := Flatten(pairs);
    var argv := ["ffmpeg"] + options + [output];
    assert argv[1..|argv| - 1] == options;
    argv
  }

  /** The command line handed to `subprocess.run`. */
  function Argv(cmd: Command): (argv: seq<string>)
    ensures FfmpegShape(argv) && OutputOf(argv) == CommandOutput(cmd) && Options(argv) == Flatten(CommandOptions(cmd))
  {
    CommandLine(CommandOptions(cmd), CommandOutput(cmd))
  }

  /**
   * `convert_video`: one H.264/AAC MP4 at the given height, written to the
   * output path with the index at the front for progressive playback.
   */
  lemma TranscodeOptions(input: string, output: string, height: nat)
    ensures var options := Options(Argv(Transcode(input, output, height)));
      && OptionOf(options, "-i") == Some(input)
      && OptionOf(options, "-vf") == Some(ScaleFilter(height))
      && OptionOf(options, "-c:v") == Some("libx264")
      && OptionOf(options, "-c:a") == Some("aac")
      && OptionOf(options, "-movflags") == Some("+faststart")
  {
    var pairs := CommandOptions(Transcode(input, output, height));
    OptionAt(pairs, 0, "-i");
    OptionAt(pairs, 1, "-vf");
    OptionAt(pairs, 2, "-c:v");
    OptionAt(pairs, 5, "-c:a");
    OptionAt(pairs, 6, "-movflags");
  }

  /** `convert_video_to_hls` reads the source and scales it like `convert_video`, and names the playlist last. */
  lemma SegmentOptions(input: string, outputDir: string, height: nat)
    ensures OutputOf(Argv(Segment(input, outputDir, height))) == PlaylistPath(outputDir)
    ensures var options := Options(Argv(Segment(input, outputDir, height)));
      && OptionOf(options, "-i") == Some(input)
      && OptionOf(options, "-vf") == Some(ScaleFilter(height))
  {
    var pairs := CommandOptions(Segment(input, outputDir, height));
    OptionAt(pairs, 0, "-i");
    OptionAt(pairs, 1, "-vf");
  }

  /**
   * `convert_video_to_hls`: 10-second segments named `%03d.ts` in the output
   * directory, every segment kept in the playlist (`-hls_list_size 0`).
   */
  lemma SegmentingOptions(input: string, outputDir: string, height: nat)
    ensures var options := Options(Argv(Segment(input, outputDir, height)));
      && OptionOf(options, "-hls_time") == Some(SegmentSeconds)
      && OptionOf(options, "-hls_list_size") == Some("0")
      && OptionOf(options, "-hls_segment_filename") == Some(Join(outputDir, SegmentPattern))
  {
    var pairs := CommandOptions(Segment(input, outputDir, height));
    OptionAt(pairs, 6, "-hls_time");
    OptionAt(pairs, 7, "-hls_list_size");
    OptionAt(pairs, 8, "-hls_segment_filename");
  }

  /**
   * `convert_video`: runs ffmpeg with `check=True`. A zero exit status leaves
   * the output file on disk; any other raises `CalledProcessError`.
   */
  method ConvertVideo(fs: Storage.MediaFiles, ffmpeg: Program, input: string, output: string, height: nat)
    returns (r: Result<(), JobError>)
    modifies fs
    ensures var cmd := Transcode(input, output, height);
      && (ffmpeg.Run(cmd).exitStatus == 0 ==>
            r == Success(()) && fs.files == old(fs.files) + ffmpeg.Run(cmd).written + {output})
      && (ffmpeg.Run(cmd).exitStatus != 0 ==>
            r == Failure(CalledProcessError(ffmpeg.Run(cmd).exitStatus, cmd))
            && fs.files == old(fs.files) + ffmpeg.Run(cmd).written)
  {
    var cmd := Transcode(input, output, height);
    var run := ffmpeg.Run(cmd);
    if run.exitStatus == 0 {
      fs.Write(run.written + {output});
      r := Success(());
    } else {
      fs.Write(run.written);
      r := Failure(CalledProcessError(run.exitStatus, cmd));
    }
  }

  /**
   * `convert_video_to_hls`: runs ffmpeg with `check=True` and returns the
   * playlist path, which depends only on the output directory. A non-zero exit
   * raises `CalledProcessError`; whatever ffmpeg wrote before stays on disk.
   */
  method ConvertVideoToHls(fs: Storage.MediaFiles, ffmpeg: Program, input: string, outputDir: string, height: nat)
    returns (r: Result<string, JobError>)
    modifies fs
    ensures var cmd := Segment(input, outputDir, height);
      && (ffmpeg.Run(cmd).exitStatus == 0 ==>
            r == Success(PlaylistPath(outputDir))
            && fs.files == old(fs.files) + ffmpeg.Run(cmd).written + {PlaylistPath(outputDir)})
      && (ffmpeg.Run(cmd).exitStatus != 0 ==>
            r == Failure(CalledProcessError(ffmpeg.Run(cmd).exitStatus, cmd))
            && fs.files == old(fs.files) + ffmpeg.Run(cmd).written)
  {
    var playlist := PlaylistPath(outputDir);
    var cmd := Segment(input, outputDir, height);
    var run := ffmpeg.Run(cmd);
    if run.exitStatus == 0 {
      fs.Write(run.written + {playlist});
      r := Success(playlist);
    } else {
      fs.Write(run.written);
      r := Failure(CalledProcessError(run.exitStatus, cmd));
    }
  }

  /**
   * `generate_thumbnail`: the frame at one second, saved as an image at
   * `output`. `framed` holds the inputs that decode at one second.
   */
  method GenerateThumbnail(fs: Storage.MediaFiles, framed: set<string>, input: string, output: string)
    returns (r: Result<(), JobError>)
    modifies fs
    ensures input in framed ==> r == Success(()) && fs.files == old(fs.files) + {output}
    ensures input !in framed ==> r == Failure(ThumbnailError(input)) && fs.files == old(fs.files)
  {
    if input in framed {
      fs.Write({output});
      r := Success(());
    } else {
      r := Failure(ThumbnailError(input));
    }
  }

  /**
   * `get_hls_manifest_by_resolution`: the manifest field for exactly "480p",
   * "720p" and "1080p" (possibly empty), nothing for any other token.
   */
  function ManifestByResolution(v: Video, resolution: string): (m: Option<string>)
    ensures m.Some? <==> resolution in {"480p", "720p", "1080p"}
    ensures resolution == "480p" ==> m == Some(v.hls480pManifest)
    ensures resolution == "720p" ==> m == Some(v.hls720pManifest)
    ensures resolution == "1080p" ==> m == Some(v.hls1080pManifest)
  {
    if resolution == "480p" then Some(v.hls480pManifest)
    else if resolution == "720p" then Some(v.hls720pManifest)
    else if resolution == "1080p" then Some(v.hls1080pManifest)
    else None
  }

  /** A set manifest field: present and non-empty (a `FieldFile` is falsy when empty). */
  predicate IsSet(m: Option<string>) {
    m.Some? && m.value != ""
  }

  /** The directory of a stored manifest joined with a segment name. */
  function SegmentCandidate(mediaRoot: string, manifestName: string, segment: string): string {
    Join(Dirname(Storage.FieldPath(mediaRoot, manifestName)), segment)
  }

  /**
   * The segment next to a manifest: nothing when the manifest is unset or
   * empty, otherwise the joined path if it exists. The segment need not be
   * listed in the manifest.
   */
  function SegmentNextTo(manifest: Option<string>, segment: string,
                         mediaRoot: string, files: set<string>): (r: Option<string>)
    ensures !IsSet(manifest) ==> r == None
    ensures IsSet(manifest) ==>
      var candidate := SegmentCandidate(mediaRoot, manifest.value, segment);
      r == if candidate in files then Some(candidate) else None
    ensures r.Some? ==> r.value in files
  {
    if !IsSet(manifest) then None
    else
      var segmentPath := SegmentCandidate(mediaRoot, manifest.value, segment);
      if segmentPath in files then Some(segmentPath) else None
  }

  /** `get_hls_segment_path`: the segment next to the manifest stored for the resolution. */
  function GetHlsSegmentPath(v: Video, resolution: string, segment: string,
                             mediaRoot: string, files: set<string>): (r: Option<string>)
    ensures !IsSet(ManifestByResolution(v, resolution)) ==> r == None
    ensures resolution !in {"480p", "720p", "1080p"} ==> r == None
    ensures IsSet(ManifestByResolution(v, resolution)) ==>
      var candidate := SegmentCandidate(mediaRoot, ManifestByResolution(v, resolution).value, segment);
      r == if candidate in files then Some(candidate) else None
    ensures r.Some? ==> r.value in files
  {
    SegmentNextTo(ManifestByResolution(v, resolution), segment, mediaRoot, files)
  }
}
