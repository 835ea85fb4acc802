/**
 * The background job of the `content` app: for one Video row, encode an HLS
 * rendition at each rung of the ladder, record each playlist's name relative to
 * the media root, grab a thumbnail, and save the row.
 */
module ContentTasks {
  import opened Wrappers
  import opened Text
  import opened Paths
  import opened ContentModels
  import opened ContentUtils
  import Storage

  /** The resolution ladder, in encoding order. */
  const Ladder: seq<nat> := [480, 720, 1080]

  /** The token of a height, as in URLs and directory names: 720 becomes "720p". */
  function Token(res: nat): (t: string)
    ensures |t| >= 2 && t[|t| - 1] == 'p'
    ensures NoSlash(t) && t != "." && t != ".."
  {
    var t := NatToString(res) + "p";
    assert forall i | 0 <= i < |t| - 1 :: t[i] == NatToString(res)[i];
    t
  }

  /** The rendition directory below the media root: `videos/hls/{res}p/{stem}`. */
  function HlsRel(res: nat, stem: string): string {
    "videos/hls/" + Token(res) + "/" + stem
  }

  /** The f-string `videos/hls/{res}p/{stem}` is the rendition directory. */
  lemma HlsRelFormat(res: nat, stem: string)
    ensures "videos/hls/" + NatToString(res) + "p/" + stem == HlsRel(res, stem)
  {
    assert "p/" == "p" + "/";
  }

  function HlsDir(mediaRoot: string, res: nat, stem: string): string {
    Join(mediaRoot, HlsRel(res, stem))
  }

  /** The manifest name the job stores in the rendition's field. */
  function ManifestRel(res: nat, stem: string): string {
    HlsRel(res, stem) + "/" + PlaylistName
  }

  /** The thumbnail name the job stores: `videos/thumbnails/{stem}.jpg`. */
  function ThumbnailRel(stem: string): string {
    "videos/thumbnails/" + stem + ".jpg"
  }

  function ThumbnailPath(mediaRoot: string, stem: string): string {
    Join(mediaRoot, ThumbnailRel(stem))
  }

  /** A stem that names one directory: not empty and not "." or "..". */
  predicate CleanStem(stem: string) {
    stem != "" && NoSlash(stem) && stem != "." && stem != ".."
  }

  /** The media root the job runs under: absolute, without "." or ".." components. */
  predicate CleanRoot(mediaRoot: string) {
    IsAbs(mediaRoot) && NoDotComponents(mediaRoot)
  }

  /** The components of a manifest name, from the media root down. */
  function ManifestComponents(res: nat, stem: string): seq<string> {
    ["videos", "hls", Token(res), stem, PlaylistName]
  }

  lemma ManifestRelIsIntercalate(res: nat, stem: string)
    ensures Intercalate(ManifestComponents(res, stem)) == ManifestRel(res, stem)
  {
    var xs := ManifestComponents(res, stem);
    IntercalateSnoc(["videos"], "hls");
    IntercalateSnoc(["videos", "hls"], Token(res));
    IntercalateSnoc(["videos", "hls", Token(res)], stem);
    IntercalateSnoc(["videos", "hls", Token(res), stem], PlaylistName);
    assert xs == ["videos", "hls", Token(res), stem] + [PlaylistName];
    assert ["videos"] + ["hls"] == ["videos", "hls"];
    assert ["videos", "hls"] + [Token(res)] == ["videos", "hls", Token(res)];
    assert ["videos", "hls", Token(res)] + [stem] == ["videos", "hls", Token(res), stem];
    assert Intercalate(["videos", "hls"]) == "videos/hls";
    assert Intercalate(xs) == "videos/hls" + "/" + Token(res) + "/" + stem + "/" + PlaylistName;
  }

  lemma IntercalateSnoc(xs: seq<string>, y: string)
    requires |xs| >= 1
    ensures Intercalate(xs + [y]) == Intercalate(xs) + "/" + y
  {
    assert (xs + [y])[..|xs|] == xs;
  }

  /**
   * The playlist the encoder writes for a rung is the media root joined with the
   * stored manifest name, and `relpath` of it against the media root gives that
   * name back.
   */
  lemma StoredManifestName(mediaRoot: string, res: nat, stem: string)
    requires CleanRoot(mediaRoot) && CleanStem(stem)
    ensures PlaylistPath(HlsDir(mediaRoot, res, stem)) == Join(mediaRoot, ManifestRel(res, stem))
    ensures IsAbs(PlaylistPath(HlsDir(mediaRoot, res, stem)))
    ensures NoDotComponents(PlaylistPath(HlsDir(mediaRoot, res, stem)))
    ensures RelPath(PlaylistPath(HlsDir(mediaRoot, res, stem)), mediaRoot) == ManifestRel(res, stem)
  {
    var xs := ManifestComponents(res, stem);
    PlaylistNameIsName();
    assert PlaylistName != "." && PlaylistName != ".." && PlaylistName != [];
    assert ProperComponents(xs);
    assert NoDotNames(xs);
    var rel := HlsRel(res, stem);
    assert rel[0] == 'v' && rel[|rel| - 1] == stem[|stem| - 1];
    JoinThenName(mediaRoot, rel, PlaylistName);
    ManifestRelIsIntercalate(res, stem);
    IntercalateShape(xs);
    ComponentsOfJoin(mediaRoot, Intercalate(xs));
    ComponentsOfIntercalate(xs);
    RelPathBelow(mediaRoot, xs);
  }

  // ---------------------------------------------------------------------------
  // The rungs of the ladder

  /** The encoder command of rung `k`. */
  function RungCommand(input: string, mediaRoot: string, stem: string, k: nat): Command
    requires k < |Ladder|
  {
    Segment(input, HlsDir(mediaRoot, Ladder[k], stem), Ladder[k])
  }

  predicate RungSucceeds(ffmpeg: Program, input: string, mediaRoot: string, stem: string, k: nat)
    requires k < |Ladder|
  {
    ffmpeg.Run(RungCommand(input, mediaRoot, stem, k)).exitStatus == 0
  }

  /** Whether each rung's encoder run succeeds, in ladder order. */
  function Successes(ffmpeg: Program, input: string, mediaRoot: string, stem: string): (ok: seq<bool>)
    ensures |ok| == |Ladder|
    ensures forall k | 0 <= k < |Ladder| :: ok[k] == RungSucceeds(ffmpeg, input, mediaRoot, stem, k)
  {
    seq(|Ladder|, k requires 0 <= k < |Ladder| => RungSucceeds(ffmpeg, input, mediaRoot, stem, k))
  }

  /** The index of the first false entry from `from` on, or |ok| when every one is true. */
  function FirstFalse(ok: seq<bool>, from: nat): (n: nat)
    requires from <= |ok|
    ensures from <= n <= |ok|
    ensures forall k | from <= k < n :: ok[k]
    ensures n < |ok| ==> !ok[n]
    decreases |ok| - from
  {
    if from == |ok| || !ok[from] then from else FirstFalse(ok, from + 1)
  }

  /**
   * The index of the first rung whose encoder run fails, or |Ladder| when
   * every rung succeeds: the rungs before it all succeed.
   */
  function FirstFailure(ffmpeg: Program, input: string, mediaRoot: string, stem: string,
                        from: nat): (n: nat)
    requires from <= |Ladder|
    ensures from <= n <= |Ladder|
    ensures forall k | from <= k < n :: RungSucceeds(ffmpeg, input, mediaRoot, stem, k)
    ensures n < |Ladder| ==> !RungSucceeds(ffmpeg, input, mediaRoot, stem, n)
  {
    FirstFalse(Successes(ffmpeg, input, mediaRoot, stem), from)
  }

  /** What rung `k` leaves on disk: whatever the encoder wrote, plus the playlist when it succeeds. */
  function RungFiles(ffmpeg: Program, input: string, mediaRoot: string, stem: string, k: nat): set<string>
    requires k < |Ladder|
  {
    var run := ffmpeg.Run(RungCommand(input, mediaRoot, stem, k));
    if run.exitStatus == 0 then run.written + {PlaylistPath(HlsDir(mediaRoot, Ladder[k], stem))} else run.written
  }

  /** The files left by the first `m` rungs. */
  function RungsFiles(ffmpeg: Program, input: string, mediaRoot: string, stem: string, m: nat): set<string>
    requires m <= |Ladder|
  {
    if m == 0 then {} else RungsFiles(ffmpeg, input, mediaRoot, stem, m - 1) + RungFiles(ffmpeg, input, mediaRoot, stem, m - 1)
  }

  /** The row after the manifests of the first `m` rungs have been recorded. */
  function Recorded(v: Video, stem: string, m: nat): Video
    requires m <= |Ladder|
  {
    if m == 0 then v else WithHlsManifest(Recorded(v, stem, m - 1), Ladder[m - 1], ManifestRel(Ladder[m - 1], stem))
  }

  /** The row a completed job saves: all three manifests and the thumbnail set, nothing else changed. */
  function Processed(v: Video, stem: string): Video {
    v.(hls480pManifest := ManifestRel(480, stem),
       hls720pManifest := ManifestRel(720, stem),
       hls1080pManifest := ManifestRel(1080, stem),
       thumbnail := ThumbnailRel(stem))
  }

  /** Recording the whole ladder sets exactly the three manifest fields. */
  lemma RecordedLadder(v: Video, stem: string)
    ensures Recorded(v, stem, |Ladder|) == Processed(v, stem).(thumbnail := v.thumbnail)
  {
    assert Recorded(v, stem, 1) == v.(hls480pManifest := ManifestRel(480, stem));
    assert Recorded(v, stem, 2) == Recorded(v, stem, 1).(hls720pManifest := ManifestRel(720, stem));
    assert Recorded(v, stem, 3) == Recorded(v, stem, 2).(hls1080pManifest := ManifestRel(1080, stem));
  }

  lemma UnionStep(start: set<string>, done: set<string>, step: set<string>, next: set<string>)
    requires next == done + step
    ensures start + done + step == start + next
  {
  }

  /** Every playlist of a rung that succeeded is on disk after the first `m` rungs. */
  lemma {:induction false} RungsFilesHoldPlaylists(ffmpeg: Program, input: string, mediaRoot: string,
                                                 stem: string, m: nat, k: nat)
    requires k < m <= |Ladder| && RungSucceeds(ffmpeg, input, mediaRoot, stem, k)
    ensures PlaylistPath(HlsDir(mediaRoot, Ladder[k], stem)) in RungsFiles(ffmpeg, input, mediaRoot, stem, m)
    decreases m
  {
    if k < m - 1 {
      RungsFilesHoldPlaylists(ffmpeg, input, mediaRoot, stem, m - 1, k);
    }
  }

  /** When every rung succeeds, every stored manifest name points at a playlist on disk. */
  lemma AllPlaylistsWritten(ffmpeg: Program, input: string, mediaRoot: string, stem: string)
    requires CleanRoot(mediaRoot) && CleanStem(stem)
    requires FirstFailure(ffmpeg, input, mediaRoot, stem, 0) == |Ladder|
    ensures forall res | res in Ladder ::
      Join(mediaRoot, ManifestRel(res, stem)) in RungsFiles(ffmpeg, input, mediaRoot, stem, |Ladder|)
  {
    forall res | res in Ladder
      ensures Join(mediaRoot, ManifestRel(res, stem)) in RungsFiles(ffmpeg, input, mediaRoot, stem, |Ladder|)
    {
      var k :| 0 <= k < |Ladder| && Ladder[k] == res;
      RungsFilesHoldPlaylists(ffmpeg, input, mediaRoot, stem, |Ladder|, k);
      StoredManifestName(mediaRoot, res, stem);
    }
  }

  /** The outcome of one run of `process_video`. */
  datatype JobOutcome =
    | VideoMissing
    | NoOriginalFile
    | Raised(error: JobError)
    | Completed

  /**
   * One pass of the loop in `_convert_hls_streams`: encode rung `k` into
   * `videos/hls/{res}p/{stem}` and record the playlist's name relative to the
   * media root on the instance.
   */
  method EncodeRung(video: VideoInstance, fs: Storage.MediaFiles, ffmpeg: Program,
                    input: string, stem: string, mediaRoot: string, k: nat)
    returns (r: Result<(), JobError>)
    requires k < |Ladder| && CleanRoot(mediaRoot) && CleanStem(stem)
    modifies video, fs
    ensures fs.files == old(fs.files) + RungFiles(ffmpeg, input, mediaRoot, stem, k)
    ensures r.Success? <==> RungSucceeds(ffmpeg, input, mediaRoot, stem, k)
    ensures r.Success? ==> video.state == WithHlsManifest(old(video.state), Ladder[k], ManifestRel(Ladder[k], stem))
    ensures r.Failure? ==>
      && video.state == old(video.state)
      && r == Failure(CalledProcessError(ffmpeg.Run(RungCommand(input, mediaRoot, stem, k)).exitStatus,
                                         RungCommand(input, mediaRoot, stem, k)))
  {
    var res := Ladder[k];
    var hlsDir := Join(mediaRoot, "videos/hls/" + NatToString(res) + "p/" + stem);
    HlsRelFormat(res, stem);
    assert hlsDir == HlsDir(mediaRoot, res, stem);
    ghost var cmd := RungCommand(input, mediaRoot, stem, k);
    assert cmd == Segment(input, hlsDir, res);
    var manifest := ConvertVideoToHls(fs, ffmpeg, input, hlsDir, res);
    if manifest.Failure? {
      return Failure(manifest.error);
    }
    StoredManifestName(mediaRoot, res, stem);
    var relative := RelPath(manifest.value, mediaRoot);
    video.SetHlsManifest(res, relative);
    r := Success(());
  }

  /**
   * `_convert_hls_streams`: one rendition per rung, in ladder order. The first
   * failing rung raises; the rungs before it have already set their fields on
   * the instance and left their files on disk.
   */
  method ConvertHlsStreams(video: VideoInstance, fs: Storage.MediaFiles, ffmpeg: Program,
                           input: string, stem: string, mediaRoot: string)
    returns (r: Result<(), JobError>)
    requires CleanRoot(mediaRoot) && CleanStem(stem)
    modifies video, fs
    ensures var n := FirstFailure(ffmpeg, input, mediaRoot, stem, 0);
      && video.state == Recorded(old(video.state), stem, n)
      && (r.Success? <==> n == |Ladder|)
      && (n < |Ladder| ==> r == Failure(CalledProcessError(ffmpeg.Run(RungCommand(input, mediaRoot, stem, n)).exitStatus,
                                                           RungCommand(input, mediaRoot, stem, n))))
      && (n < |Ladder| ==> fs.files == old(fs.files) + RungsFiles(ffmpeg, input, mediaRoot, stem, n + 1))
      && (n == |Ladder| ==> fs.files == old(fs.files) + RungsFiles(ffmpeg, input, mediaRoot, stem, n))
  {
    var i := 0;
    while i < |Ladder|
      invariant 0 <= i <= |Ladder|
      invariant FirstFailure(ffmpeg, input, mediaRoot, stem, 0) == FirstFailure(ffmpeg, input, mediaRoot, stem, i)
      invariant video.state == Recorded(old(video.state), stem, i)
      invariant fs.files == old(fs.files) + RungsFiles(ffmpeg, input, mediaRoot, stem, i)
    {
      ghost var stateBefore := video.state;
      r := EncodeRung(video, fs, ffmpeg, input, stem, mediaRoot, i);
      UnionStep(old(fs.files), RungsFiles(ffmpeg, input, mediaRoot, stem, i), RungFiles(ffmpeg, input, mediaRoot, stem, i),
                RungsFiles(ffmpeg, input, mediaRoot, stem, i + 1));
      if r.Failure? {
        return;
      }
      assert Recorded(old(video.state), stem, i + 1) == WithHlsManifest(stateBefore, Ladder[i], ManifestRel(Ladder[i], stem));
      i := i + 1;
    }
    r := Success(());
  }

  /**
   * `_generate_video_thumbnail`: the frame at one second saved under
   * `videos/thumbnails/{stem}.jpg`, whose name is then set on the instance.
   */
  method GenerateVideoThumbnail(video: VideoInstance, fs: Storage.MediaFiles, framed: set<string>,
                                input: string, stem: string, mediaRoot: string)
    returns (r: Result<(), JobError>)
    modifies video, fs
    ensures input in framed ==>
      && r == Success(())
      && video.state == old(video.state).(thumbnail := ThumbnailRel(stem))
      && fs.files == old(fs.files) + {ThumbnailPath(mediaRoot, stem)}
    ensures input !in framed ==>
      r == Failure(ThumbnailError(input)) && video.state == old(video.state) && fs.files == old(fs.files)
  {
    var thumbnailPath := Join(mediaRoot, "videos/thumbnails/" + stem + ".jpg");
    r := GenerateThumbnail(fs, framed, input, thumbnailPath);
    if r.Success? {
      video.SetThumbnail("videos/thumbnails/" + stem + ".jpg");
    }
  }

  /** The original file's name yields a stem the job can place in a directory name. */
  predicate JobReady(rows: map<int, Video>, videoId: int) {
    videoId in rows && rows[videoId].originalFile != "" ==> CleanStem(Stem(rows[videoId].originalFile))
  }

  /** Every encoder run and the thumbnail grab for this stem succeed. */
  predicate AllStepsSucceed(ffmpeg: Program, framed: set<string>,
                            input: string, mediaRoot: string, stem: string) {
    FirstFailure(ffmpeg, input, mediaRoot, stem, 0) == |Ladder| && input in framed
  }

  /**
   * `process_video`: a missing row or an empty original file ends the job with
   * nothing changed. Otherwise every rung is encoded and the thumbnail grabbed;
   * the row is saved only if none of them raised.
   */
  method ProcessVideo(db: VideoTable, fs: Storage.MediaFiles, ffmpeg: Program,
                      framed: set<string>, mediaRoot: string, videoId: int)
    returns (outcome: JobOutcome)
    requires db.Valid() && CleanRoot(mediaRoot) && JobReady(db.rows, videoId)
    modifies db, fs
    ensures db.Valid() && db.nextId == old(db.nextId)
    ensures outcome == VideoMissing <==> videoId !in old(db.rows)
    ensures outcome == NoOriginalFile <==> videoId in old(db.rows) && old(db.rows[videoId].originalFile) == ""
    ensures outcome in {VideoMissing, NoOriginalFile} ==> fs.files == old(fs.files)
    ensures outcome.Raised? <==>
      && videoId in old(db.rows) && old(db.rows[videoId].originalFile) != ""
      && !AllStepsSucceed(ffmpeg, framed, Storage.FieldPath(mediaRoot, old(db.rows[videoId].originalFile)),
                          mediaRoot, Stem(old(db.rows[videoId].originalFile)))
    ensures videoId in old(db.rows) && old(db.rows[videoId].originalFile) != "" ==>
      var input := Storage.FieldPath(mediaRoot, old(db.rows[videoId].originalFile));
      var stem := Stem(old(db.rows[videoId].originalFile));
      var n := FirstFailure(ffmpeg, input, mediaRoot, stem, 0);
      && (n < |Ladder| ==>
            && outcome == Raised(CalledProcessError(ffmpeg.Run(RungCommand(input, mediaRoot, stem, n)).exitStatus,
                                                    RungCommand(input, mediaRoot, stem, n)))
            && fs.files == old(fs.files) + RungsFiles(ffmpeg, input, mediaRoot, stem, n + 1))
      && (n == |Ladder| && input !in framed ==>
            && outcome == Raised(ThumbnailError(input))
            && fs.files == old(fs.files) + RungsFiles(ffmpeg, input, mediaRoot, stem, n))
      && (outcome == Completed ==>
            fs.files == old(fs.files) + RungsFiles(ffmpeg, input, mediaRoot, stem, n) + {ThumbnailPath(mediaRoot, stem)})
    ensures outcome == Completed <==>
      && videoId in old(db.rows) && old(db.rows[videoId].originalFile) != ""
      && AllStepsSucceed(ffmpeg, framed, Storage.FieldPath(mediaRoot, old(db.rows[videoId].originalFile)),
                         mediaRoot, Stem(old(db.rows[videoId].originalFile)))
    ensures outcome == Completed ==>
      var stem := Stem(old(db.rows[videoId].originalFile));
      && db.rows == old(db.rows)[videoId := Processed(old(db.rows[videoId]), stem)]
      && (forall res | res in Ladder :: Join(mediaRoot, ManifestRel(res, stem)) in fs.files)
      && ThumbnailPath(mediaRoot, stem) in fs.files
    ensures outcome != Completed ==> db.rows == old(db.rows)
    ensures old(fs.files) <= fs.files
  {
    var found := db.Get(videoId);
    if found.None? {
      return VideoMissing;
    }
    var video := found.value;
    if video.state.originalFile == "" {
      return NoOriginalFile;
    }
    var inputPath := Storage.FieldPath(mediaRoot, video.state.originalFile);
    var baseFilename := SplitExt(Basename(inputPath)).0;
    assert baseFilename == Stem(video.state.originalFile);
    ghost var row := video.state;

    var converted := ConvertHlsStreams(video, fs, ffmpeg, inputPath, baseFilename, mediaRoot);
    if converted.Failure? {
      return Raised(converted.error);
    }
    RecordedLadder(row, baseFilename);
    AllPlaylistsWritten(ffmpeg, inputPath, mediaRoot, baseFilename);

    var thumbnail := GenerateVideoThumbnail(video, fs, framed, inputPath, baseFilename, mediaRoot);
    if thumbnail.Failure? {
      return Raised(thumbnail.error);
    }
    assert video.state == Processed(row, baseFilename);
    db.Save(video);
    outcome := Completed;
  }
}
