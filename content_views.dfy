/**
 * The `content` app's API views: upload, list, and the two HLS streaming
 * endpoints, which rebuild the rendition directory from the name of the
 * original upload rather than reading the stored manifest fields.
 */
module ContentViews {
  import opened Wrappers
  import opened Paths
  import opened Http
  import opened ContentModels
  import opened ContentSerializers
  import opened ContentUtils
  import Ordering
  import Storage

  // ---------------------------------------------------------------------------
  // Streaming (`HLSManifestView`, `HLSSegmentView`)

  /** The rendition directory the streaming views read: `MEDIA_ROOT/videos/hls/{resolution}/{stem}`. */
  function ConventionDir(mediaRoot: string, resolution: string, originalFile: string): string {
    Join(mediaRoot, "videos/hls/" + resolution + "/" + Stem(originalFile))
  }

  function ConventionManifest(mediaRoot: string, resolution: string, originalFile: string): string {
    Join(ConventionDir(mediaRoot, resolution, originalFile), PlaylistName)
  }

  function ConventionSegment(mediaRoot: string, resolution: string, originalFile: string, segment: string): string {
    Join(ConventionDir(mediaRoot, resolution, originalFile), segment)
  }

  /**
   * An error raised in a streaming view, as the view's pass-through renderer
   * answers it. `render` hands the `{"detail": message}` dict back unchanged and
   * Django builds a body from an iterable by joining its items, which for a dict
   * are its keys: the body is the bytes "detail" whatever the message, under the
   * renderer's media type.
   */
  function RenderedError(status: int, mediaType: string): (r: Response)
    ensures r.status == status && r.body == Text("detail") && r.cookies == map[]
    ensures "Content-Type" in r.headers && r.headers["Content-Type"] == mediaType
  {
    var data := Detail(status, "").body.json.fields;
    assert data.Keys == {"detail"};
    Response(status, map["Content-Type" := mediaType], Text("detail"), map[])
  }

  /**
   * `FileResponse(open(path, "rb"), content_type=...)` for an existing file:
   * the given content type and an inline disposition naming the file's base
   * name. Otherwise `Http404(missing)`, rendered as above.
   */
  function ServeFile(files: set<string>, path: string, contentType: string): Response {
    if path in files then
      Response(200, map["Content-Type" := contentType, "Content-Disposition" := InlineDisposition(Basename(path))],
               FileBody(path), map[])
    else RenderedError(404, contentType)
  }

  /** The headers a file response is known to carry; Content-Length, from the file's size, is not modelled. */
  predicate FileHeaders(r: Response, contentType: string, path: string) {
    && "Content-Type" in r.headers && r.headers["Content-Type"] == contentType
    && "Content-Disposition" in r.headers && r.headers["Content-Disposition"] == InlineDisposition(Basename(path))
  }

  /**
   * `HLSManifestView.get`: anonymous requests are refused (401), an unknown id
   * is a 404 before any file is looked at ("Video not found."), and otherwise
   * the playlist under the rebuilt directory is served if it exists ("HLS
   * manifest not found." if not). The resolution is not checked against the
   * ladder. Every refusal reaches the client as the playlist-typed bytes
   * "detail".
   */
  function HlsManifestGet(requester: Requester, rows: map<int, Video>, files: set<string>,
                          mediaRoot: string, movieId: int, resolution: string): (r: Response)
    ensures requester.Anonymous? ==> r == RenderedError(401, MpegUrl)
    ensures requester.Member? && movieId !in rows ==> r == RenderedError(404, MpegUrl)
    ensures requester.Member? && movieId in rows ==>
      (r.status == 200 <==> ConventionManifest(mediaRoot, resolution, rows[movieId].originalFile) in files)
    ensures r.status == 200 ==> (
      && movieId in rows
      && r.body == FileBody(ConventionManifest(mediaRoot, resolution, rows[movieId].originalFile))
      && FileHeaders(r, MpegUrl, ConventionManifest(mediaRoot, resolution, rows[movieId].originalFile)))
    ensures r.status != 200 ==> r == RenderedError(r.status, MpegUrl) && r.status in {401, 404}
  {
    if requester.Anonymous? then RenderedError(401, MpegUrl)
    else if movieId !in rows then RenderedError(404, MpegUrl)
    else ServeFile(files, ConventionManifest(mediaRoot, resolution, rows[movieId].originalFile), MpegUrl)
  }

  /** `HLSSegmentView.get`: the same decisions, for any file name in the rebuilt directory, typed as a segment. */
  function HlsSegmentGet(requester: Requester, rows: map<int, Video>, files: set<string>,
                         mediaRoot: string, movieId: int, resolution: string, segment: string): (r: Response)
    ensures requester.Anonymous? ==> r == RenderedError(401, Mp2t)
    ensures requester.Member? && movieId !in rows ==> r == RenderedError(404, Mp2t)
    ensures requester.Member? && movieId in rows ==>
      (r.status == 200 <==> ConventionSegment(mediaRoot, resolution, rows[movieId].originalFile, segment) in files)
    ensures r.status == 200 ==> (
      && movieId in rows
      && r.body == FileBody(ConventionSegment(mediaRoot, resolution, rows[movieId].originalFile, segment))
      && FileHeaders(r, Mp2t, ConventionSegment(mediaRoot, resolution, rows[movieId].originalFile, segment)))
    ensures r.status != 200 ==> r == RenderedError(r.status, Mp2t) && r.status in {401, 404}
  {
    if requester.Anonymous? then RenderedError(401, Mp2t)
    else if movieId !in rows then RenderedError(404, Mp2t)
    else ServeFile(files, ConventionSegment(mediaRoot, resolution, rows[movieId].originalFile, segment), Mp2t)
  }

  /** A served playlist is named `index.m3u8` in its disposition, whatever the directory. */
  lemma ManifestDisposition(requester: Requester, rows: map<int, Video>, files: set<string>,
                            mediaRoot: string, movieId: int, resolution: string)
    requires HlsManifestGet(requester, rows, files, mediaRoot, movieId, resolution).status == 200
    ensures HlsManifestGet(requester, rows, files, mediaRoot, movieId, resolution).headers["Content-Disposition"]
         == "inline; filename=\"" + PlaylistName + "\""
  {
    PlaylistBasename(ConventionDir(mediaRoot, resolution, rows[movieId].originalFile));
    PlaylistDisposition(ConventionManifest(mediaRoot, resolution, rows[movieId].originalFile));
  }

  lemma PlaylistDisposition(path: string)
    requires Basename(path) == PlaylistName
    ensures InlineDisposition(Basename(path)) == "inline; filename=\"" + PlaylistName + "\""
  {
    assert IsAscii(PlaylistName);
    assert forall i | 0 <= i < |PlaylistName| :: PlaylistName[i] != '\\' && PlaylistName[i] != '"';
    PlainDisposition(PlaylistName);
  }

  /** For an unknown id both views answer the same whatever files exist: the row lookup comes first. */
  lemma UnknownIdBeforeFiles(requester: Requester, rows: map<int, Video>, files: set<string>, other: set<string>,
                             mediaRoot: string, movieId: int, resolution: string, segment: string)
    requires movieId !in rows
    ensures HlsManifestGet(requester, rows, files, mediaRoot, movieId, resolution)
         == HlsManifestGet(requester, rows, other, mediaRoot, movieId, resolution)
    ensures HlsSegmentGet(requester, rows, files, mediaRoot, movieId, resolution, segment)
         == HlsSegmentGet(requester, rows, other, mediaRoot, movieId, resolution, segment)
    ensures requester.Member? ==> HlsManifestGet(requester, rows, files, mediaRoot, movieId, resolution).status == 404
  {
  }

  /** The manifest path is `MEDIA_ROOT/videos/hls/{resolution}/{stem}/index.m3u8` for a non-empty stem. */
  lemma ManifestPathShape(mediaRoot: string, resolution: string, originalFile: string)
    requires Stem(originalFile) != ""
    ensures ConventionManifest(mediaRoot, resolution, originalFile)
         == Join(mediaRoot, "videos/hls/" + resolution + "/" + Stem(originalFile) + "/" + PlaylistName)
  {
    var stem := Stem(originalFile);
    var rel := "videos/hls/" + resolution + "/" + stem;
    assert rel[0] == 'v';
    assert rel[|rel| - 1] == stem[|stem| - 1];
    assert !IsAbs(PlaylistName) by {
      PlaylistNameIsName();
    }
    JoinThenName(mediaRoot, rel, PlaylistName);
  }

  /**
   * Both views read the same directory: asking the segment view for
   * "index.m3u8" answers exactly as the manifest view does, apart from the
   * content type and the not-found message. No check ties a segment to the
   * manifest that lists it.
   */
  lemma SegmentViewSharesDirectory(requester: Requester, rows: map<int, Video>, files: set<string>,
                                   mediaRoot: string, movieId: int, resolution: string)
    ensures HlsSegmentGet(requester, rows, files, mediaRoot, movieId, resolution, PlaylistName).status
         == HlsManifestGet(requester, rows, files, mediaRoot, movieId, resolution).status
    ensures HlsManifestGet(requester, rows, files, mediaRoot, movieId, resolution).status == 200 ==>
      HlsSegmentGet(requester, rows, files, mediaRoot, movieId, resolution, PlaylistName).body
        == HlsManifestGet(requester, rows, files, mediaRoot, movieId, resolution).body
  {
  }

  // ---------------------------------------------------------------------------
  // Listing (`VideoListView`)

  /** `order_by('-upload_date')`. */
  function Newest(listing: seq<Video>): (sorted: seq<Video>)
    ensures Ordering.SortedDesc(sorted, UploadDate)
    ensures multiset(sorted) == multiset(listing)
  {
    Ordering.SortDesc(listing, UploadDate)
  }

  /**
   * `VideoListView.get`: anonymous requests are refused; a failing query, or an
   * exception the serializer lets through, becomes a 500 carrying its message.
   */
  function VideoListGet(requester: Requester, listing: seq<Video>, queryError: Option<string>,
                        storage: MediaStorage, request: Option<Request>): (r: Response)
    ensures requester.Anonymous? ==> r == Detail(401, NoCredentials)
    ensures r.status == 500 ==> requester.Member?
    ensures requester.Member? && queryError.Some? ==> r == ServerError(queryError.value)
    ensures requester.Member? && queryError.None? && ListItems(Newest(listing), storage, request).Failure? ==>
      r == ServerError(ListItems(Newest(listing), storage, request).error)
    ensures requester.Member? && queryError.None? ==>
      (r.status == 200 <==> ListItems(Newest(listing), storage, request).Success?)
    ensures r.status in {200, 401, 500}
  {
    if requester.Anonymous? then Detail(401, NoCredentials)
    else if queryError.Some? then ServerError(queryError.value)
    else
      match ListItems(Newest(listing), storage, request)
      case Success(items) => Response(200, map[], JsonBody(JList(items)), map[])
      case Failure(message) => ServerError(message)
  }

  /** The 500 answer of the list view, with the exception's message as `detail`. */
  function ServerError(detail: string): Response {
    Response(500, map[], JsonBody(JObject(map[
      "error" := JStr("Unable to fetch videos"), "detail" := JStr(detail)])), map[])
  }

  /**
   * A listing answered with 200 holds one item per video, newest first: the
   * i-th item is the representation of the i-th video of a permutation of the
   * rows sorted by descending upload date.
   */
  lemma ListNewestFirst(requester: Requester, listing: seq<Video>, queryError: Option<string>,
                        storage: MediaStorage, request: Option<Request>)
    requires VideoListGet(requester, listing, queryError, storage, request).status == 200
    ensures var r := VideoListGet(requester, listing, queryError, storage, request);
      && r.body.JsonBody? && r.body.json.JList?
      && |r.body.json.items| == |listing|
      && forall i | 0 <= i < |listing| ::
           ListItem(Newest(listing)[i], storage, request).Success? &&
           r.body.json.items[i] == ListItem(Newest(listing)[i], storage, request).value &&
           r.body.json.items[i].fields["created_at"] == JTime(Newest(listing)[i].uploadDate)
  {
    var sorted := Newest(listing);
    assert |sorted| == |listing| by {
      assert |multiset(sorted)| == |multiset(listing)|;
    }
    forall i | 0 <= i < |listing|
      ensures ListItem(sorted[i], storage, request).Success?
      ensures ListItem(sorted[i], storage, request).value.fields["created_at"] == JTime(sorted[i].uploadDate)
    {
      ListItemFields(sorted[i], storage, request);
    }
  }

  // ---------------------------------------------------------------------------
  // Upload (`VideoUploadView`)

  const UploadAccepted: string := "Video uploaded successfully. Processing started in background."

  /**
   * `VideoUploadView.post`. The view has no authenticators, so a refused request
   * is answered as a denied permission (403), never as missing credentials, and
   * outside a test client that forces a user every request arrives anonymous.
   * Only staff pass. A valid form creates the row under the name the storage
   * gave the file, and the `post_save` handler enqueues exactly one processing
   * job for it once the transaction commits.
   */
  method VideoUploadPost(db: VideoTable, queue: Storage.JobQueue, requester: Requester,
                         form: UploadForm, storedName: string, now: int) returns (r: Response)
    requires db.Valid()
    modifies db, queue
    ensures db.Valid()
    ensures requester.Anonymous? ==> r == Detail(403, NoPermission)
    ensures requester.Member? && !requester.isStaff ==> r == Detail(403, NoPermission)
    ensures requester.Member? && requester.isStaff && ValidateUpload(form, Keys(GenreChoices)).Failure? ==>
      r == Response(400, map[], JsonBody(ErrorsJson(ValidateUpload(form, Keys(GenreChoices)).error)), map[])
    ensures r.status != 201 ==> db.rows == old(db.rows) && db.nextId == old(db.nextId) && queue.pending == old(queue.pending)
    ensures r.status == 201 <==> requester.Member? && requester.isStaff && ValidateUpload(form, Keys(GenreChoices)).Success?
    ensures r.status == 201 ==>
      var u := ValidateUpload(form, Keys(GenreChoices)).value;
      var id := old(db.nextId);
      && r == Detail(201, UploadAccepted)
      && id !in old(db.rows)
      && db.rows == old(db.rows)[id := Video(id, u.title, u.description, storedName, "", "", "", "", "", "", "", now, u.genre)]
      && queue.pending == old(queue.pending) + [id]
  {
    if requester.Anonymous? || !requester.isStaff {
      return Detail(403, NoPermission);
    }
    var valid := ValidateUpload(form, Keys(GenreChoices));
    if valid.Failure? {
      return Response(400, map[], JsonBody(ErrorsJson(valid.error)), map[]);
    }
    var u := valid.value;
    var video := db.Create(u.title, u.description, storedName, u.genre, now);
    queue.Delay(video.id);
    r := Detail(201, UploadAccepted);
  }
}
