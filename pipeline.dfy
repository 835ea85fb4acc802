/**
 * Where the write side and the two read sides of the HLS pipeline meet. The
 * job stores manifest names relative to the media root; the convention
 * resolver rebuilds the directory from the original upload's name; the
 * stored-field resolver joins a segment onto the directory of the stored
 * manifest. For every rung of the ladder the three name the same files.
 */
module Pipeline {
  import opened Wrappers
  import opened Text
  import opened Paths
  import opened Http
  import opened ContentModels
  import opened ContentUtils
  import opened ContentTasks
  import opened ContentViews
  import Storage

  /** A name without separators has no last separator. */
  lemma NoSlashHasNoSeparator(name: string)
    requires NoSlash(name)
    ensures LastIndex(name, '/') == -1
  {
  }

  /** `dirname(d + "/" + name)` is `d` when `d` does not end in a separator and `name` has none. */
  lemma DirnameOfChild(d: string, name: string)
    requires d != [] && d[|d| - 1] != '/' && NoSlash(name)
    ensures Dirname(d + "/" + name) == d
  {
    var p := d + "/" + name;
    NoSlashHasNoSeparator(name);
    LastIndexAppend(d + "/", name, '/');
    assert LastIndex(d + "/", '/') == |d|;
    var head := p[..LastIndex(p, '/') + 1];
    assert head == d + "/";
    assert head[|head| - 2] != '/';
    assert !AllSlashes(head);
    assert head[..|head| - 1] == d;
    assert StripTrailingSlashes(head) == StripTrailingSlashes(d);
  }

  /** The rung's directory below the media root does not end in a separator. */
  lemma HlsDirShape(mediaRoot: string, res: nat, stem: string)
    requires CleanStem(stem)
    ensures var rel := HlsRel(res, stem);
      rel != [] && rel[0] != '/' && rel[|rel| - 1] != '/'
    ensures var d := HlsDir(mediaRoot, res, stem);
      d != [] && d[|d| - 1] != '/'
  {
    var rel := HlsRel(res, stem);
    assert rel[0] == 'v';
    assert rel[|rel| - 1] == stem[|stem| - 1];
    var d := HlsDir(mediaRoot, res, stem);
    assert d[|d| - |rel|..][|rel| - 1] == d[|d| - 1];
  }

  /** The stored manifest, placed under the media root, is the playlist inside the rung's directory. */
  lemma StoredManifestPath(mediaRoot: string, res: nat, stem: string)
    requires CleanStem(stem)
    ensures Storage.FieldPath(mediaRoot, ManifestRel(res, stem)) == HlsDir(mediaRoot, res, stem) + "/" + PlaylistName
  {
    HlsDirShape(mediaRoot, res, stem);
    PlaylistNameIsName();
    JoinThenName(mediaRoot, HlsRel(res, stem), PlaylistName);
    var rel := ManifestRel(res, stem);
    assert rel[0] == 'v';
  }

  /**
   * The write directory of rung `res` is the directory the convention
   * resolver reads for the token "{res}p", and the stored manifest is the
   * path it serves.
   */
  lemma StoredManifestIsConventionPath(mediaRoot: string, res: nat, originalFile: string)
    requires CleanStem(Stem(originalFile))
    ensures ConventionDir(mediaRoot, Token(res), originalFile) == HlsDir(mediaRoot, res, Stem(originalFile))
    ensures Storage.FieldPath(mediaRoot, ManifestRel(res, Stem(originalFile)))
         == ConventionManifest(mediaRoot, Token(res), originalFile)
  {
    var stem := Stem(originalFile);
    StoredManifestPath(mediaRoot, res, stem);
    HlsDirShape(mediaRoot, res, stem);
    PlaylistNameIsName();
    assert Join(HlsDir(mediaRoot, res, stem), PlaylistName) == HlsDir(mediaRoot, res, stem) + "/" + PlaylistName;
  }

  /**
   * The stored-field resolver's segment candidate for a stored manifest is the
   * convention resolver's segment path, whatever the segment name.
   */
  lemma StoredSegmentIsConventionPath(mediaRoot: string, res: nat, originalFile: string, segment: string)
    requires CleanStem(Stem(originalFile))
    ensures SegmentCandidate(mediaRoot, ManifestRel(res, Stem(originalFile)), segment)
         == ConventionSegment(mediaRoot, Token(res), originalFile, segment)
  {
    var stem := Stem(originalFile);
    StoredManifestIsConventionPath(mediaRoot, res, originalFile);
    StoredManifestPath(mediaRoot, res, stem);
    HlsDirShape(mediaRoot, res, stem);
    PlaylistNameIsName();
    DirnameOfChild(HlsDir(mediaRoot, res, stem), PlaylistName);
  }

  /** The ladder's tokens are the three the stored-field resolver knows. */
  lemma LadderTokens()
    ensures Token(480) == "480p" && Token(720) == "720p" && Token(1080) == "1080p"
  {
    assert NatToString(480) == "480" by {
      assert NatToString(48) == NatToString(4) + [DigitChar(8)];
      assert NatToString(480) == NatToString(48) + [DigitChar(0)];
    }
    assert NatToString(720) == "720" by {
      assert NatToString(72) == NatToString(7) + [DigitChar(2)];
      assert NatToString(720) == NatToString(72) + [DigitChar(0)];
    }
    assert NatToString(1080) == "1080" by {
      assert NatToString(10) == NatToString(1) + [DigitChar(0)];
      assert NatToString(108) == NatToString(10) + [DigitChar(8)];
      assert NatToString(1080) == NatToString(108) + [DigitChar(0)];
    }
    TokenOf(480, "480");
    TokenOf(720, "720");
    TokenOf(1080, "1080");
  }

  /** The token of a height whose decimal digits are `digits`. */
  lemma TokenOf(res: nat, digits: string)
    requires NatToString(res) == digits
    ensures Token(res) == digits + "p"
  {
  }

  /** In a processed row, the stored-field resolver finds each rung's manifest under the rung's token. */
  lemma StoredFieldOfRung(row: Video, stem: string, k: nat)
    requires k < |Ladder|
    ensures ManifestByResolution(Processed(row, stem), Token(Ladder[k])) == Some(ManifestRel(Ladder[k], stem))
  {
    LadderTokens();
    var v := Processed(row, stem);
    if k == 0 {
      assert ManifestByResolution(v, "480p") == Some(v.hls480pManifest);
    } else if k == 1 {
      assert ManifestByResolution(v, "720p") == Some(v.hls720pManifest);
    } else {
      assert ManifestByResolution(v, "1080p") == Some(v.hls1080pManifest);
    }
  }

  /**
   * After a completed job, for every rung the stored field is set, the
   * stored-field resolver and the convention resolver name the same manifest
   * and the same segment files, and so the two read sides agree on every
   * request for that rung.
   */
  lemma ResolversAgreeAfterJob(row: Video, mediaRoot: string, files: set<string>, k: nat, segment: string)
    requires k < |Ladder| && CleanStem(Stem(row.originalFile))
    ensures var v := Processed(row, Stem(row.originalFile));
      var token := Token(Ladder[k]);
      && ManifestByResolution(v, token) == Some(ManifestRel(Ladder[k], Stem(row.originalFile)))
      && IsSet(ManifestByResolution(v, token))
      && Storage.FieldPath(mediaRoot, ManifestByResolution(v, token).value)
           == ConventionManifest(mediaRoot, token, v.originalFile)
      && GetHlsSegmentPath(v, token, segment, mediaRoot, files)
           == (if ConventionSegment(mediaRoot, token, v.originalFile, segment) in files
               then Some(ConventionSegment(mediaRoot, token, v.originalFile, segment)) else None)
  {
    var stem := Stem(row.originalFile);
    var v := Processed(row, stem);
    var token := Token(Ladder[k]);
    var stored := ManifestRel(Ladder[k], stem);
    StoredFieldOfRung(row, stem, k);
    assert stored[0] == 'v';
    assert IsSet(ManifestByResolution(v, token));
    assert v.originalFile == row.originalFile;
    StoredManifestIsConventionPath(mediaRoot, Ladder[k], row.originalFile);
    StoredSegmentIsConventionPath(mediaRoot, Ladder[k], row.originalFile, segment);
    assert SegmentCandidate(mediaRoot, stored, segment) == ConventionSegment(mediaRoot, token, v.originalFile, segment);
  }

  /**
   * End to end: the playlists the job writes (all of them once it completes)
   * are what the convention manifest view serves to a signed-in user for the
   * rung's token, whatever the stored fields hold.
   */
  lemma CompletedJobIsServed(requester: Requester, rows: map<int, Video>, files: set<string>,
                             mediaRoot: string, movieId: int, k: nat)
    requires requester.Member? && movieId in rows && k < |Ladder|
    requires CleanStem(Stem(rows[movieId].originalFile))
    requires Join(mediaRoot, ManifestRel(Ladder[k], Stem(rows[movieId].originalFile))) in files
    ensures HlsManifestGet(requester, rows, files, mediaRoot, movieId, Token(Ladder[k])).status == 200
  {
    StoredManifestIsConventionPath(mediaRoot, Ladder[k], rows[movieId].originalFile);
  }
}
