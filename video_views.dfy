/**
 * The API views of the `video` app. Upload enqueues the job itself; the
 * streaming views are open to anonymous users, resolve files through the
 * stored manifest fields, and set caching headers on the responses they build.
 */
module VideoViews {
  import opened Wrappers
  import opened Http
  import opened VideoModels
  import CM = ContentModels
  import CS = ContentSerializers
  import CU = ContentUtils
  import VideoSerializers
  import Ordering
  import Storage

  // ---------------------------------------------------------------------------
  // Upload (`VideoUploadView`, open to everyone)

  const UploadAccepted: string := "Video hochgeladen. Verarbeitung l\U{E4}uft im Hintergrund."

  /**
   * `VideoUploadView.post`: a valid form saves the video and enqueues exactly
   * one processing job with its id; an invalid one answers the field errors
   * and changes nothing.
   */
  method VideoUploadPost(db: VideoTable, queue: Storage.JobQueue, form: CS.UploadForm,
                         storedName: string, now: int) returns (r: Response)
    requires db.Valid()
    modifies db, queue
    ensures db.Valid()
    ensures CS.ValidateUpload(form, CM.Keys(GenreChoices)).Failure? ==>
      && r == Response(400, map[], JsonBody(CS.ErrorsJson(CS.ValidateUpload(form, CM.Keys(GenreChoices)).error)), map[])
      && db.rows == old(db.rows) && db.nextId == old(db.nextId) && queue.pending == old(queue.pending)
    ensures CS.ValidateUpload(form, CM.Keys(GenreChoices)).Success? ==>
      var u := CS.ValidateUpload(form, CM.Keys(GenreChoices)).value;
      var id := old(db.nextId);
      && r == Detail(201, UploadAccepted)
      && id !in old(db.rows)
      && db.rows == old(db.rows)[id := Video(id, u.title, u.description, storedName, "", "", "", "", "", "", "", "", "", now, u.genre)]
      && queue.pending == old(queue.pending) + [id]
  {
    var valid := CS.ValidateUpload(form, CM.Keys(GenreChoices));
    if valid.Failure? {
      return Response(400, map[], JsonBody(CS.ErrorsJson(valid.error)), map[]);
    }
    var u := valid.value;
    var video := db.Create(u.title, u.description, storedName, u.genre, now);
    queue.Delay(video.id);
    r := Detail(201, UploadAccepted);
  }

  // ---------------------------------------------------------------------------
  // Listing (`VideoListView`)

  /**
   * `VideoListView.get`: anonymous requests are refused; otherwise every video,
   * newest first. There is no handler here, so an exception from the
   * serializer escapes the view (`Failure`) and the framework answers it.
   * With the serializer as written that happens for every non-empty table.
   */
  function VideoListGet(requester: Requester, listing: seq<Video>, storage: CS.MediaStorage,
                        request: Option<CS.Request>): (r: Result<Response, string>)
    ensures requester.Anonymous? ==> r == Success(Detail(401, NoCredentials))
    ensures requester.Member? ==>
      (r.Success? <==> VideoSerializers.ListItems(Ordering.SortDesc(listing, UploadDate), storage, request).Success?)
    ensures requester.Member? ==> (r.Success? <==> listing == [])
    ensures requester.Member? && r.Success? ==>
      r.value == Response(200, map[], JsonBody(JList([])), map[])
    ensures requester.Member? && r.Failure? ==>
      r.error == VideoSerializers.RedundantSource(VideoSerializers.DeclaredFields[2])
  {
    if requester.Anonymous? then Success(Detail(401, NoCredentials))
    else
      var sorted := Ordering.SortDesc(listing, UploadDate);
      assert |multiset(sorted)| == |multiset(listing)|;
      match VideoSerializers.ListItems(sorted, storage, request)
      case Success(items) => Success(Response(200, map[], JsonBody(JList(items)), map[]))
      case Failure(message) => Failure(message)
  }

  // ---------------------------------------------------------------------------
  // Streaming (`HLSManifestView`, `HLSSegmentView`, open to everyone)

  /** The manifest to serve: the stored field's file, when the field is set and the file exists. */
  function ManifestToServe(rows: map<int, Video>, files: set<string>, mediaRoot: string,
                           movieId: int, resolution: string): (path: Option<string>)
    requires movieId in rows
    ensures path.Some? <==>
      && CU.IsSet(ManifestByResolution(rows[movieId], resolution))
      && Storage.FieldPath(mediaRoot, ManifestByResolution(rows[movieId], resolution).value) in files
    ensures path.Some? ==> path.value in files
    ensures path.Some? ==> path.value == Storage.FieldPath(mediaRoot, ManifestByResolution(rows[movieId], resolution).value)
  {
    var manifest := ManifestByResolution(rows[movieId], resolution);
    if !CU.IsSet(manifest) then None
    else
      var path := Storage.FieldPath(mediaRoot, manifest.value);
      if path in files then Some(path) else None
  }

  /** The segment to serve: the resolver's path, when it found one (an empty path is falsy). */
  function SegmentToServe(rows: map<int, Video>, files: set<string>, mediaRoot: string,
                          movieId: int, resolution: string, segment: string): (path: Option<string>)
    requires movieId in rows
    ensures path.Some? ==> path.value in files && path.value != ""
    ensures path.Some? ==> (
      && CU.IsSet(ManifestByResolution(rows[movieId], resolution))
      && path.value == CU.SegmentCandidate(mediaRoot, ManifestByResolution(rows[movieId], resolution).value, segment))
    ensures CU.IsSet(ManifestByResolution(rows[movieId], resolution)) ==>
      var candidate := CU.SegmentCandidate(mediaRoot, ManifestByResolution(rows[movieId], resolution).value, segment);
      (path.Some? <==> candidate in files && candidate != "")
  {
    var found := CU.SegmentNextTo(ManifestByResolution(rows[movieId], resolution), segment, mediaRoot, files);
    if found.None? || found.value == "" then None else found
  }

  /** This revision has no 480p field, so a 480p manifest or segment is never served. */
  lemma No480p(rows: map<int, Video>, files: set<string>, mediaRoot: string, movieId: int, segment: string)
    requires movieId in rows
    ensures ManifestToServe(rows, files, mediaRoot, movieId, "480p") == None
    ensures SegmentToServe(rows, files, mediaRoot, movieId, "480p", segment) == None
  {
  }

  /**
   * `HLSManifestView.get`: an unknown id is a 404; an unset manifest or a
   * missing file is a plain-text 404; otherwise the playlist, never cached.
   */
  method HlsManifestGet(rows: map<int, Video>, files: set<string>, mediaRoot: string,
                        movieId: int, resolution: string) returns (r: Response)
    ensures movieId !in rows ==> r == Detail(404, "Video not found")
    ensures movieId in rows && ManifestToServe(rows, files, mediaRoot, movieId, resolution).None? ==>
      r == Response(404, map["Content-Type" := HtmlUtf8], Text("Manifest not available."), map[])
    ensures movieId in rows && ManifestToServe(rows, files, mediaRoot, movieId, resolution).Some? ==>
      r == Response(200, map["Content-Type" := MpegUrl, "Cache-Control" := "no-cache"],
                    FileBody(ManifestToServe(rows, files, mediaRoot, movieId, resolution).value), map[])
    ensures r.status == 200 <==> movieId in rows && ManifestToServe(rows, files, mediaRoot, movieId, resolution).Some?
  {
    if movieId !in rows {
      return Detail(404, "Video not found");
    }
    var path := ManifestToServe(rows, files, mediaRoot, movieId, resolution);
    if path.None? {
      var missing := new HttpResponse(Text("Manifest not available."), HtmlUtf8, 404);
      return missing.Snapshot();
    }
    var response := new HttpResponse(FileBody(path.value), MpegUrl, 200);
    response.SetHeader("Cache-Control", "no-cache");
    r := response.Snapshot();
  }

  /**
   * `HLSSegmentView.get`: an unknown id is a 404, so is a segment the resolver
   * does not find; otherwise the segment, cacheable for a year.
   */
  method HlsSegmentGet(rows: map<int, Video>, files: set<string>, mediaRoot: string,
                       movieId: int, resolution: string, segment: string) returns (r: Response)
    ensures movieId !in rows ==> r == Detail(404, "Video not found")
    ensures movieId in rows && SegmentToServe(rows, files, mediaRoot, movieId, resolution, segment).None? ==>
      r == Response(404, map["Content-Type" := HtmlUtf8], Text("Segment not found."), map[])
    ensures movieId in rows && SegmentToServe(rows, files, mediaRoot, movieId, resolution, segment).Some? ==>
      r == Response(200, map["Content-Type" := Mp2t, "Cache-Control" := "max-age=31536000"],
                    FileBody(SegmentToServe(rows, files, mediaRoot, movieId, resolution, segment).value), map[])
    ensures r.status == 200 <==> movieId in rows && SegmentToServe(rows, files, mediaRoot, movieId, resolution, segment).Some?
  {
    if movieId !in rows {
      return Detail(404, "Video not found");
    }
    var path := SegmentToServe(rows, files, mediaRoot, movieId, resolution, segment);
    if path.None? {
      var missing := new HttpResponse(Text("Segment not found."), HtmlUtf8, 404);
      return missing.Snapshot();
    }
    var response := new HttpResponse(FileBody(path.value), Mp2t, 200);
    response.SetHeader("Cache-Control", "max-age=31536000");
    r := response.Snapshot();
  }
}
