# Videoflix: the HLS pipeline and the cookie-based auth rules, in Dafny

Videoflix is a Django video platform. An uploaded video is queued for a
background job. The job encodes one HLS rendition per rung of a fixed
resolution ladder and records each playlist's name on the Video row. It also
grabs a thumbnail. The API then serves playlists and segments to players. Its
auth app keeps the JWTs in cookies and registers users by email address.

The model covers these parts:

- **The write side** of the pipeline (`ContentTasks`, `ContentUtils`,
  `Storage`). The media directory is a set of file paths and the Video table is
  a map from primary key to row. ffmpeg and the frame grabber are tables of
  outcomes given as parameters. `process_video` is a method with the rendition
  loop, proved against the row it saves and the files it leaves.
- **The two read sides.** The `content` views rebuild the rendition directory
  from the name of the original upload (`ContentViews`). The `video` views and
  `get_hls_segment_path` read the stored manifest field (`ContentUtils`,
  `VideoViews`). `Pipeline` proves that after a completed job both name the
  same manifest and segment files for every rung.
- **The response rules**: status codes, content types and cache headers.
- **The small mappings**:
  - genre to category, a table lookup in `content` and `str.title()` in `video`;
  - the thumbnail URL;
  - the admin's HLS status column;
  - the serializers' key sets and upload validation.
- **The auth app**:
  - the JWT cookie helpers as updates of a cookie jar (section 4.1 of RFC 6265),
    plus a client that receives the cookies (section 5.3 of RFC 6265);
  - the user manager's rules;
  - activation, login, refresh and logout;
  - the registration and user serializers.

Path helpers follow Python's `posixpath`: `join`, `basename`, `dirname`,
`splitext` and `relpath` over path components. The content types are those of
RFC 8216 (section 4 for playlists, section 3.2 for MPEG-2 TS segments).

Two behaviours of the code are worth stating plainly:

- In the `content` job, a failed thumbnail grab raises out of `process_video`
  before `save()`, so no new field is stored.
- A user created without flags is active, which is the model field's default.

## Model

| member | source | states |
|---|---|---|
| ContentModels.Keys | content/models.py:28-40 | the stored keys of a choice table are exactly the first components of its pairs |
| ContentModels.Display | content/models.py:45-48 | `get_genre_display`: a value that is not a key is shown as itself |
| ContentModels.GenreKeysDistinct | content/models.py:28-39 | the ten genre keys are pairwise distinct |
| ContentModels.DisplayOfKey | content/models.py:45-48 | with distinct keys, each key displays as the label paired with it |
| ContentModels.CategoryOfGenre | content/models.py:45-48 | each of the ten keys maps to its own label ("sci_fi" to "Sci-Fi"); any other genre is shown unchanged |
| ContentModels.Str | content/models.py:42-43 | a video's string form is its title |
| ContentModels.WithHlsManifest | content/api/tasks.py:43 | `setattr` on `hls_{res}p_manifest` changes exactly the field of that rung; any other height changes nothing |
| ContentModels.VideoInstance.constructor | content/api/tasks.py:14 | a loaded instance holds the row it was loaded from |
| ContentModels.VideoInstance.SetHlsManifest | content/api/tasks.py:43 | the instance's new state is the old one with that rung's manifest field set |
| ContentModels.VideoInstance.SetThumbnail | content/api/tasks.py:53 | only the thumbnail field changes |
| ContentModels.VideoTable.Get | content/api/tasks.py:13-17 | an unknown id gives nothing (DoesNotExist); a known id gives a fresh instance of its row |
| ContentModels.VideoTable.Save | content/api/tasks.py:30 | the instance's state is written under its key; the table keeps unique keys below `nextId` |
| ContentModels.VideoTable.Create | content/models.py:4-26 | a new row under a key not used before, with every optional file field empty; other rows unchanged |
| ContentUtils.PlaylistPath | content/api/utils.py:44 | the returned playlist's base name is `index.m3u8` whatever the output directory |
| ContentUtils.PlaylistBasename | content/api/utils.py:44 | joining `index.m3u8` onto any directory keeps that base name |
| ContentUtils.OptionOfFlatten | content/api/utils.py:17-27 | the value ffmpeg reads for a flag from the laid-out options is the value of the first pair with that flag |
| ContentUtils.CommandLine | content/api/utils.py:17-27 | the command line starts with `ffmpeg`, ends with the output, and holds the option pairs in between |
| ContentUtils.Argv | content/api/utils.py:46-58 | both commands have that shape; the HLS command's output is the playlist path |
| ContentUtils.TranscodeOptions | content/api/utils.py:17-27 | `convert_video` reads the input after `-i`, scales with `scale=-2:{height}`, encodes H.264/AAC and sets `+faststart` |
| ContentUtils.SegmentOptions | content/api/utils.py:46-58 | `convert_video_to_hls` reads the same input and filter and names the playlist last |
| ContentUtils.SegmentingOptions | content/api/utils.py:54-56 | 10-second segments, an unbounded playlist (`-hls_list_size 0`) and segment files `output_dir/%03d.ts` |
| ContentUtils.ConvertVideo | content/api/utils.py:7-28 | exit 0 leaves the output file on disk; any other status raises `CalledProcessError` with that status and command |
| ContentUtils.ConvertVideoToHls | content/api/utils.py:31-60 | on exit 0 it returns `output_dir/index.m3u8`, whatever the input and height, and the playlist exists; otherwise it raises |
| ContentUtils.GenerateThumbnail | content/api/utils.py:63-74 | a decodable input leaves the image at the output path; otherwise the job raises and nothing is written |
| ContentUtils.ManifestByResolution | content/api/utils.py:77-93 | the matching field for exactly "480p", "720p" and "1080p"; nothing for any other token |
| ContentUtils.SegmentNextTo | content/api/utils.py:108-117 | nothing when the manifest is unset or empty; otherwise the manifest's directory joined with the segment name, only if that file exists |
| ContentUtils.GetHlsSegmentPath | content/api/utils.py:96-117 | nothing for an unset manifest or an unknown token; a result is `dirname(manifest.path)` joined with the segment and exists on disk |
| ContentTasks.Token | content/api/tasks.py:38 | a height's token ends in "p" and is a single path component |
| ContentTasks.HlsRelFormat | content/api/tasks.py:38 | the f-string `videos/hls/{res}p/{stem}` is the rung's directory below the media root |
| ContentTasks.StoredManifestName | content/api/tasks.py:38-43 | the playlist written for a rung is the media root joined with the stored name, and `relpath` against the media root gives that name back |
| ContentTasks.FirstFailure | content/api/tasks.py:36-43 | every rung before the index succeeds and the rung at the index fails (or the whole ladder succeeds) |
| ContentTasks.RecordedLadder | content/api/tasks.py:36-43 | recording the whole ladder sets exactly the three manifest fields, in ladder order |
| ContentTasks.RungsFilesHoldPlaylists | content/api/tasks.py:36-43 | the playlist of every successful rung is among the files the first rungs leave |
| ContentTasks.AllPlaylistsWritten | content/api/tasks.py:36-43 | when every rung succeeds, every stored manifest name points at a playlist on disk |
| ContentTasks.EncodeRung | content/api/tasks.py:37-43 | one loop pass: the field is set only after the encoder returned; on failure the instance is unchanged and the error carries the command |
| ContentTasks.ConvertHlsStreams | content/api/tasks.py:33-43 | the rungs before the first failure have set their fields and left their files; the first failure raises; success means all three are recorded |
| ContentTasks.GenerateVideoThumbnail | content/api/tasks.py:46-53 | the thumbnail becomes `videos/thumbnails/{stem}.jpg` only after the grab returned; a failed grab changes nothing |
| ContentTasks.ProcessVideo | content/api/tasks.py:9-30 | unknown id (iff) or empty original file (iff): nothing changes. It raises iff some step fails: the first failing rung raises its `CalledProcessError` with the files of the rungs up to it left behind, or, after a full ladder, the thumbnail error. The row is saved once, iff every step succeeds, with just the three manifests and the thumbnail changed, all on disk. Files are never removed |
| ContentSerializers.TextError | content/api/serializers.py:8-13 | a missing text field is required; one blank after stripping (any `str.isspace()` character) is refused with that reason alone; otherwise every failing validator is reported, in order: longer than 255 stripped characters, then a null character |
| ContentSerializers.FileError | content/api/serializers.py:8-13 | a file is accepted iff it is present, named, non-empty, and its name has at most 255 characters |
| ContentSerializers.GenreError | content/models.py:40 | a genre is accepted iff it is one of the stored keys |
| ContentSerializers.UploadErrors | content/api/serializers.py:8-13 | exactly the failing fields, each with its reason |
| ContentSerializers.ValidateUpload | content/api/serializers.py:8-13 | invalid iff some field fails, with every reason of every failing field; a valid upload carries the stripped title (1 to 255 characters), the non-empty stripped description, neither holding a null character, the file and a known genre |
| ContentSerializers.ErrorsJson | content/api/views.py:53 | `serializer.errors`: one key per failing field, holding the list of that field's messages |
| ContentSerializers.LongTitleRejected | content/models.py:5 | a title over 255 characters is refused with a reason for `title` |
| ContentSerializers.UnknownGenreRejected | content/models.py:40 | a genre outside the ten keys is refused with exactly the invalid-choice reason naming it for `genre` |
| ContentSerializers.NullCharacterRejected | content/api/serializers.py:8-13 | a title holding a null character is refused with the null-character reason for `title` |
| ContentSerializers.MediaStorage.Access | content/api/serializers.py:34 | `FileSystemStorage.url`: raises exactly for the names the storage fails on; otherwise MEDIA_URL followed by `filepath_to_uri(name)` without leading slashes |
| ContentSerializers.FilepathToUri | content/api/serializers.py:34 | a name of letters, digits, `_.-~` and `/~!*()'` is its own URI path |
| ContentSerializers.PlainNameUrl | content/api/serializers.py:34 | a relative name of letters, digits and `_.-~/` gives the URL MEDIA_URL + name |
| ContentSerializers.UrlIsQuoted | content/api/serializers.py:34 | below MEDIA_URL the URL holds only unquoted characters, `%` and upper-case hexadecimal digits |
| ContentSerializers.UmlautEscaped | content/api/serializers.py:34 | "Ü" is sent as its UTF-8 bytes, "%C3%9C" |
| Http.QuoteWith | content/api/serializers.py:34 | `quote` keeps a string made only of characters it leaves alone |
| Http.QuotedIsSafe | content/api/serializers.py:34 | a quoted string holds only characters left alone, `%` and upper-case hexadecimal digits |
| ContentSerializers.BuildAbsoluteUri | content/api/serializers.py:36 | the result ends with the location; a location with a scheme is kept; any other starts with the request's origin |
| ContentSerializers.ThumbnailUrl | content/api/serializers.py:27-42 | empty thumbnail, ValueError, OSError or AttributeError: None. No request: the relative URL. With a request: the absolute URL. Any other exception propagates |
| ContentSerializers.ItemJson | content/api/serializers.py:16-25 | exactly the six keys, each holding its field |
| ContentSerializers.ListItem | content/api/serializers.py:16-25 | a video lists iff its thumbnail URL does not raise |
| ContentSerializers.ListItemFields | content/api/serializers.py:16-25 | a listed video has exactly the six keys, `created_at` from `upload_date`, the display label as `category`, and null for an empty thumbnail |
| ContentSerializers.Collect | content/api/views.py:63 | `many=True`: every item's representation in order, or the exception of the first item that raises |
| ContentSerializers.ListItems | content/api/views.py:63 | the list succeeds iff every video lists; item i is the representation of video i |
| ContentViews.RenderedError | content/api/views.py:17-36 | a refusal rendered by a pass-through renderer has the body "detail" (the dict's key) under the renderer's media type |
| ContentViews.HlsManifestGet | content/api/views.py:79-93 | anonymous: 401; unknown id: 404; otherwise 200 iff `MEDIA_ROOT/videos/hls/{resolution}/{stem}/index.m3u8` exists, with the file as body, Content-Type `application/vnd.apple.mpegurl` and an inline Content-Disposition naming its base name. Every refusal is the rendered "detail" body under the playlist type |
| ContentViews.HlsSegmentGet | content/api/views.py:102-116 | the same rules for the segment name joined onto that directory, typed `video/MP2T` |
| ContentViews.ManifestDisposition | content/api/views.py:93 | a served playlist's disposition is `inline; filename="index.m3u8"` |
| Http.PlainDisposition | content/api/views.py:93 | an ASCII file name without backslash or quote is named as it is in the inline disposition |
| ContentViews.UnknownIdBeforeFiles | content/api/views.py:80-83 | for an unknown id both views answer the same whatever files exist: 404 before any file check |
| ContentViews.ManifestPathShape | content/api/views.py:85-88 | the manifest path is the media root joined with `videos/hls/{resolution}/{stem}/index.m3u8` |
| ContentViews.SegmentViewSharesDirectory | content/api/views.py:108-111 | both views read one directory: the segment view serves `index.m3u8` exactly when the manifest view does. No manifest-membership or ladder check |
| ContentViews.Newest | content/api/views.py:62 | the listing is a permutation of the rows sorted by descending upload date |
| ContentViews.VideoListGet | content/api/views.py:60-71 | anonymous: 401. A failing query or serializer: 500 with "Unable to fetch videos" and that exception's message as `detail`. Otherwise 200 iff every video lists |
| ContentViews.ListNewestFirst | content/api/views.py:62-64 | a 200 listing has one item per video, item i being the representation of the i-th newest video |
| ContentViews.VideoUploadPost | content/api/views.py:38-53 | anonymous or non-staff: 403 with the permission-denied message (no authenticators, so never the missing-credentials one). Invalid form: 400 with the errors and nothing changed. Valid: 201, one new row with empty optional files, and exactly one job queued for its id |
| ContentAdmin.CountSet | content/admin.py:78 | the count is at most the number of fields; 0 iff all are empty; full iff none is |
| ContentAdmin.ProcessedCount | content/admin.py:76-78 | the number of set manifest fields lies in 0..3; 0 iff none is set, 3 iff all are |
| ContentAdmin.HlsStatus | content/admin.py:74-85 | "Pending" iff no manifest is set; "Complete" iff all three are; otherwise "Partial (n/3)" |
| ContentAdmin.StatusOfRows | content/admin.py:80-85 | a partial status is "Partial (1/3)" or "Partial (2/3)" |
| ContentAdmin.HasThumbnail | content/admin.py:68-70 | true iff the thumbnail field is non-empty |
| ContentAdmin.Ids | content/admin.py:98-99 | the ids of the selection, in order |
| ContentAdmin.ReprocessHls | content/admin.py:93-105 | one job per selected video, in queryset order; the message reports the number selected |
| Storage.FieldPath | content/api/tasks.py:23 | `FieldFile.path` lies under the media root and has the stored name's base name |
| Storage.MediaFiles.Write | content/api/utils.py:28 | files an external program writes are added; none is removed |
| Storage.JobQueue.Delay | content/admin.py:99 | `delay(id)` appends exactly one job for the id |
| Pipeline.StoredManifestPath | content/api/tasks.py:38-43 | the stored manifest under the media root is the playlist inside the rung's directory |
| Pipeline.StoredManifestIsConventionPath | content/api/views.py:85-88 | the write directory of rung r is the one the convention resolver reads for token "{r}p"; the stored manifest is the path it serves |
| Pipeline.StoredSegmentIsConventionPath | content/api/utils.py:112-113 | the stored-field resolver's segment candidate is the convention resolver's segment path, for every segment name |
| Pipeline.LadderTokens | content/api/tasks.py:36 | the ladder's tokens are "480p", "720p" and "1080p" |
| Pipeline.StoredFieldOfRung | content/api/utils.py:88-93 | in a processed row, the lookup of each rung's token gives that rung's stored manifest |
| Pipeline.ResolversAgreeAfterJob | content/api/utils.py:96-117 | after a completed job, for every rung both resolvers name the same manifest and the same segment files |
| Pipeline.CompletedJobIsServed | content/api/views.py:79-93 | a playlist the job wrote is served with 200 to a signed-in user for the rung's token |
| Ordering.Insert | content/models.py:50-51 | inserting adds exactly one element to the listing |
| Ordering.InsertSorted | content/models.py:50-51 | inserting into a listing sorted by descending key keeps it sorted |
| Ordering.SortDesc | content/models.py:50-51 | `ordering = ['-upload_date']`: a permutation sorted by descending key |
| Paths.Join | content/api/tasks.py:38 | `os.path.join` ends with its second argument and starts with the first when the second is relative |
| Paths.Basename | content/api/tasks.py:24 | the base name is a suffix with no separator; a name without separators is its own base name |
| Paths.Dirname | content/api/utils.py:112 | `os.path.dirname` is a prefix of the path |
| Paths.SplitExt | content/api/tasks.py:24 | the root and the extension concatenate to the path; the extension is empty or starts with a dot and has no separator |
| Paths.Stem | content/api/tasks.py:24 | the stem is a single path component |
| Paths.RelPathBelow | content/api/tasks.py:42 | `relpath` of a path below the media root gives the components below it back |
| Text.Strip | content/api/serializers.py:8-13 | the stripped text neither starts nor ends with whitespace |
| Text.LStripIsSuffix | content/api/serializers.py:8-13 | the left strip keeps a suffix and removes only whitespace |
| Text.RStripIsPrefix | content/api/serializers.py:8-13 | the right strip keeps a prefix and removes only whitespace |
| Text.StripIsMiddle | content/api/serializers.py:8-13 | the stripped text is the slice between a whitespace prefix and a whitespace suffix |
| Http.SetCookie | user_auth_app/api/utils.py:14-21 | one name is written with the given value; an attribute not passed keeps its earlier value; every other cookie is untouched |
| Http.DeleteCookie | user_auth_app/api/views.py:85-86 | the name is emptied with max-age 0 and path "/"; every other cookie is untouched |
| Http.HttpResponse.SetHeader | video/api/views.py:74 | `response[name] = value` changes only that header |
| Http.HttpResponse.SetData | user_auth_app/api/views.py:62 | `response.data = ...` changes only the body |
| Http.HttpResponse.SetCookieOn | user_auth_app/api/views.py:50-55 | only the cookie jar changes, as `SetCookie` states |
| Http.HttpResponse.DeleteCookieOn | user_auth_app/api/views.py:85 | only the cookie jar changes, as `DeleteCookie` states |
| VideoModels.TitleFrom | video/models.py:51-54 | title-casing keeps the length |
| VideoModels.TitleFromMeaning | video/models.py:51-54 | each character is upper-cased at the start of a letter run, lower-cased inside one, and kept otherwise |
| VideoModels.TitleCaseMeaning | video/models.py:51-54 | `str.title()` meets that character-by-character description |
| VideoModels.TitleCaseIdempotent | video/models.py:54 | title-casing keeps the length and is idempotent |
| VideoModels.Category | video/models.py:51-54 | the category is the title-cased genre |
| VideoModels.CategoryExamples | video/models.py:51-54 | "sci-fi" gives "Sci-Fi" and "action" gives "Action" |
| VideoModels.GenreKeysDistinct | video/models.py:34-45 | this revision's ten keys are pairwise distinct |
| VideoModels.CategoryIgnoresLabels | video/models.py:40-54 | the label of "sci-fi" is "Science Fiction", yet its category is "Sci-Fi" |
| VideoModels.Str | video/models.py:48-49 | a video's string form is its title |
| VideoModels.ManifestByResolution | video/models.py:23-30 | the field for exactly "180p", "360p", "720p" and "1080p"; nothing for "480p" or any other token |
| VideoModels.VideoTable.Create | video/api/views.py:31 | a new row under an unused key, every optional file empty, other rows unchanged |
| VideoSerializers.ThumbnailUrl | video/api/serializers.py:31-44 | empty thumbnail or no `url` attribute: None. No request: the relative URL. With a request: the absolute URL. Any other exception propagates |
| VideoSerializers.ThumbnailRevisionsDiffer | video/api/serializers.py:42-43 | the two revisions differ exactly on a ValueError or OSError, which `content` maps to None and `video` lets propagate |
| VideoSerializers.ListItem | video/api/serializers.py:16-29 | in the intended representation (see Findings), a video lists iff its thumbnail URL does not raise |
| VideoSerializers.ListItemFields | video/api/serializers.py:23-29 | intended representation: exactly the six keys, `created_at` from `upload_date`, the title-cased genre as `category`, null for an empty thumbnail |
| VideoSerializers.BindFields | video/api/serializers.py:23-25 | binding fails iff some declared field's `source` is its own name, with the framework's assertion message for the first such field |
| VideoSerializers.ListItems | video/api/serializers.py:25 | as written: the list succeeds iff there are no videos (then it is empty); any video raises the redundant-`source` assertion for `category` |
| VideoSerializers.IntendedListItems | video/api/serializers.py:16-29 | with `category` declared without `source`: the list succeeds iff every video lists; item i is the representation of video i |
| VideoSerializers.RedundantSourceBreaksList | video/api/serializers.py:25 | one video without a thumbnail: the list as written raises, the intended one lists its six keys |
| VideoViews.VideoUploadPost | video/api/views.py:28-37 | a valid form saves one row and enqueues exactly one job with its id, then 201; an invalid one is a 400 with the errors and enqueues nothing |
| VideoViews.VideoListGet | video/api/views.py:47-50 | anonymous: 401; a signed-in user gets a 200 iff the table is empty, with an empty list; otherwise the serializer's assertion escapes the view |
| VideoViews.ManifestToServe | video/api/views.py:66-67 | a manifest is served iff its stored field is set and its file exists |
| VideoViews.SegmentToServe | video/api/views.py:91-92 | a segment is served iff the stored-field resolver finds a non-empty existing path next to the stored manifest |
| VideoViews.No480p | video/models.py:23-30 | no 480p manifest or segment is ever served by this revision |
| VideoViews.HlsManifestGet | video/api/views.py:60-75 | unknown id: 404; nothing to serve: plain-text 404; otherwise 200 with `application/vnd.apple.mpegurl` and `Cache-Control: no-cache` |
| VideoViews.HlsSegmentGet | video/api/views.py:85-98 | unknown id: 404; segment not found: plain-text 404; otherwise 200 with `video/MP2T` and `Cache-Control: max-age=31536000` |
| AuthUtils.PutCookie | user_auth_app/api/utils.py:14-21 | one helper cookie with the configured path, httponly, secure and SameSite; other cookies untouched |
| AuthUtils.WithJwtCookies | user_auth_app/api/utils.py:3-31 | the access cookie always, the refresh cookie iff the token is truthy, each with its value and path; no other cookie changes |
| AuthUtils.WithoutJwtCookies | user_auth_app/api/utils.py:33-60 | both names emptied with max-age 0 and the configured path; no other cookie changes |
| AuthUtils.SetJwtCookies | user_auth_app/api/utils.py:3-31 | only the response's cookie jar changes, as `WithJwtCookies` states |
| AuthUtils.ClearJwtCookies | user_auth_app/api/utils.py:33-60 | only the response's cookie jar changes, as `WithoutJwtCookies` states |
| AuthUtils.GetRefreshToken | user_auth_app/api/utils.py:62-75 | the value under the configured refresh name, or None if absent |
| AuthUtils.Receive | user_auth_app/api/utils.py:42-60 | a client keeps each received cookie that has not expired, drops an expired one, and keeps the cookies it was not sent |
| AuthUtils.FreshCookieAttributes | user_auth_app/api/utils.py:14-31 | on a jar without the two names, each cookie has exactly the configured attributes; no refresh cookie for a falsy token |
| AuthUtils.DefaultSettings | user_auth_app/api/utils.py:15-20 | with nothing configured: names "access_token"/"refresh_token", httponly, not secure, SameSite "Lax", path "/" |
| AuthUtils.ClearAfterSet | user_auth_app/api/utils.py:33-60 | clearing after setting empties both names with max-age 0, keeps other cookies, and a client then holds neither token |
| AuthUtils.SetThenGetRefreshToken | user_auth_app/api/utils.py:62-75 | the refresh token the helper sets is the one read back from the client's next request |
| AuthModels.Str | user_auth_app/models.py:41-42 | a user's string form is the email |
| AuthModels.FlagValue | user_auth_app/models.py:14 | an absent flag takes the field default; a boolean flag is stored as given |
| AuthModels.NormalizeEmail | user_auth_app/models.py:13 | an address without "@" is kept exactly as given |
| AuthModels.NormalizeAt | user_auth_app/models.py:13 | the local part before the last "@" is kept and the domain after it lower-cased |
| AuthModels.NormalizedShape | user_auth_app/models.py:13 | a normalised address joins the local part to a lower-case domain without "@" |
| AuthModels.NormalizedIsFixed | user_auth_app/models.py:13 | an address already in that shape is left as it is |
| AuthModels.NormalizeEmailIdempotent | user_auth_app/models.py:13 | normalising an address that has an "@" is idempotent |
| AuthModels.NormalizeEmailExample | user_auth_app/models.py:13 | "Test@Example.COM" becomes "Test@example.com" |
| AuthModels.NewUser | user_auth_app/models.py:14-15 | the built user has the normalised address, a hash of the password or an unusable one, and the flags or their defaults |
| AuthModels.CreateUserOutcome | user_auth_app/models.py:10-17 | empty email: ValueError before anything is built. A taken normalised address: IntegrityError. Failures change nothing; otherwise the user is stored under the next key |
| AuthModels.SuperuserExtra | user_auth_app/models.py:20-21 | `is_staff` and `is_superuser` default to True; given values are kept |
| AuthModels.CreateSuperuserOutcome | user_auth_app/models.py:19-27 | a staff or superuser flag that is not True raises ValueError and changes nothing; otherwise `create_user` with the defaulted flags |
| AuthModels.SuperuserFlags | user_auth_app/models.py:19-27 | every created superuser is staff and superuser; the empty-email rule still applies |
| AuthModels.CreatedUserStr | user_auth_app/models.py:41-42 | a created user's string form is its normalised, non-empty address |
| AuthModels.UserTable.CreateUser | user_auth_app/models.py:10-17 | the result and the new table are those of `CreateUserOutcome`; addresses stay unique |
| AuthModels.UserTable.CreateSuperuser | user_auth_app/models.py:19-27 | the result and the new table are those of `CreateSuperuserOutcome` |
| AuthModels.UserTable.Activate | user_auth_app/api/views.py:31-32 | only `is_active` of that user changes, to true |
| AuthViews.Redirect | user_auth_app/api/views.py:33 | a 302 to the target with an empty body |
| AuthViews.ActivationTarget | user_auth_app/api/views.py:23-27 | the user the uid decodes to, if that user exists |
| AuthViews.Activation | user_auth_app/api/views.py:22-33 | bad uid or unknown user: 400 and nothing changes; otherwise a redirect to the admin index, activating that user alone iff the token is valid |
| AuthViews.ActivationOnlyActivates | user_auth_app/api/views.py:30-32 | activation changes no column but `is_active`, deactivates no one, and an invalid token changes nothing |
| AuthViews.ActivationGet | user_auth_app/api/views.py:22-33 | the response and the new table are those of `Activation` |
| AuthViews.ProfileQueryset | user_auth_app/api/views.py:41-42 | the queryset holds the requesting user alone |
| AuthViews.TokenCookie | user_auth_app/api/views.py:50-55 | one view cookie with the lifetime as max-age, httponly, path "/"; other cookies untouched |
| AuthViews.LoginCookies | user_auth_app/api/views.py:50-61 | both token cookies, each with its own lifetime and httponly; other cookies untouched |
| AuthViews.StrField | user_auth_app/api/views.py:49 | a string read from a JSON object body is the value under that key |
| AuthViews.LoginPost | user_auth_app/api/views.py:46-63 | on 200 both cookies are set and the body becomes `{"detail": "Cookies set"}`; any other response is returned untouched |
| AuthViews.TokenJson | user_auth_app/api/views.py:68 | a missing cookie becomes JSON null |
| AuthViews.RefreshResponse | user_auth_app/api/views.py:69-79 | an accepted token sets only the access cookie and confirms; anything else is the library's rejection, untouched |
| AuthViews.RefreshPost | user_auth_app/api/views.py:67-79 | the refresh cookie, or null, is written into the request data as "refresh"; the answer is that of `RefreshResponse` |
| AuthViews.LogoutCookies | user_auth_app/api/views.py:85-86 | exactly the two names, each emptied with max-age 0 and path "/" |
| AuthViews.LogoutPost | user_auth_app/api/views.py:83-87 | always 204 with no body, deleting both configured cookies |
| AuthViews.LoginThenRefreshReadsToken | user_auth_app/api/views.py:57-68 | a client that stores a login's cookies sends the refresh token back to the refresh view |
| AuthViews.LogoutForgetsTokens | user_auth_app/api/views.py:83-87 | after logout the client holds neither token and keeps every other cookie |
| AuthSerializers.Get | user_auth_app/api/serializers.py:30 | `dict.get`: the value under the key, or None iff absent |
| AuthSerializers.Validate | user_auth_app/api/serializers.py:29-34 | refused iff the two password entries differ; otherwise the attributes unchanged |
| AuthSerializers.VerifiedMatch | user_auth_app/api/serializers.py:23 | true iff some verified row equals the address case-insensitively |
| AuthSerializers.ValidateEmail | user_auth_app/api/serializers.py:20-27 | refused iff unique addresses are on and such a row exists; otherwise the address unchanged |
| AuthSerializers.EmailCheckIgnoresCase | user_auth_app/api/serializers.py:23 | two addresses equal up to case get the same verdict |
| AuthSerializers.OnlyVerifiedRowsBlock | user_auth_app/api/serializers.py:22-23 | unverified rows never block, and with unique addresses off nothing does |
| AuthSerializers.GetCleanedData | user_auth_app/api/serializers.py:36-40 | exactly `email` and `password1`, each defaulting to "" |
| AuthSerializers.WithUsername | user_auth_app/api/serializers.py:43-44 | `username` is added with the cleaned email; every other entry is kept |
| AuthSerializers.UsernameKeepsCleanedData | user_auth_app/api/serializers.py:42-45 | copying the username changes neither the cleaned data nor the email |
| AuthSerializers.RegisterSerializer.Save | user_auth_app/api/serializers.py:42-45 | the validated data becomes `WithUsername` of the old data |
| AuthSerializers.WritableFields | user_auth_app/api/serializers.py:51-52 | only `email` can be written |
| AuthSerializers.UserJson | user_auth_app/api/serializers.py:48-52 | exactly id, email, date_joined and last_login, each holding its field |
| AuthSerializers.ApplyUpdate | user_auth_app/api/serializers.py:51-52 | an update changes at most the email; submitted read-only fields are ignored |
| AuthSerializers.UpdateKeepsReadOnlyFields | user_auth_app/api/serializers.py:52 | id, date_joined and last_login are the same before and after any update |

## Left out

- File contents, `open`, `FileResponse` and `os.makedirs` are not modelled. The file system is the set of existing regular files, so `exists` and `isfile` agree and directories are implicit.
- The ffmpeg runs and the moviepy frame grab are outside the model. Each is a table of outcomes given as a parameter: an exit status and the files written, or whether the frame at one second decodes. A zero exit status is taken to mean the output file was written; the Python code does not check it, so `ContentTasks.AllPlaylistsWritten` and `Pipeline.CompletedJobIsServed` hold under that assumption.
- `convert_video` is modelled with its command line, but nothing in the job calls it.
- Queue and signal wiring is reduced to its effect. In the `content` app, the `post_save` handler's enqueue is folded into `ContentViews.VideoUploadPost`: exactly one job when a row is created. Commit timing is not modelled.
- The video app's `video/api/tasks.py` and `video/api/functions.py` are not part of this model. The stored-field lookup of the `video` views reuses `ContentUtils.SegmentCandidate` on that revision's four fields (`VideoModels.ManifestByResolution`).
- `thumbnail_preview` and `file_size` in the admin are not modelled: HTML formatting, and float division with `%.1f` formatting.
- A Django 404 (`Http404`) is modelled as the REST framework's `{"detail": ...}` body, rendered by the streaming views' renderers as `ContentViews.RenderedError` states. The `WWW-Authenticate` header of a 401 and the `Allow` and `Vary` headers the framework adds to every view's response are not modelled.
- The `Accept` header is taken to accept the view's renderer; content negotiation and its 406 answer are not modelled.
- ContentViews.HlsManifestGet: does not model the Content-Length header `FileResponse` sets from the file's size; only Content-Type and Content-Disposition are stated. The same holds for `ContentViews.HlsSegmentGet`.
- ContentViews.HlsManifestGet: compares the rebuilt path with the existing files as a string. `os.path.isfile` resolves "." and ".." components, so a resolution of ".." (which `<str:resolution>` accepts) reaches files outside the rendition directories; the model answers 404 for such a path unless that exact string is a file.
- ContentViews.HlsSegmentGet: the same string comparison; a segment or resolution of ".." is resolved by the file system in the code and not in the model.
- ContentViews.VideoUploadPost: takes the requester as a parameter. The view has no authenticators, so every request the server receives is anonymous and every upload is refused with 403 outside a test client that forces a user; the model does not tie the requester to the request's credentials.
- ContentSerializers.BuildAbsoluteUri: models only the scheme, origin and directory of the request. It does not model URL normalisation or percent-encoding.
- Letter case is ASCII. There is no Unicode case mapping, and `str.title()` treats only ASCII letters as cased. Whitespace is the full set `str.isspace()` accepts.
- AuthModels.NormalizeEmail: lower-cases only the ASCII letters of the domain, where Python's `str.lower()` also maps other letters.
- JWT signing and verification, djoser's `decode_uid`, the token generator and simplejwt's views are parameters. They are given as the uid map, the set of accepted (user, token) pairs, and the issued or rejected refresh responses.
- Email sending and the allauth adapter are not modelled. The adapter's `clean_email` is taken to keep the address.
- Password hashing is not modelled. A stored hash records the raw password.
- The registration completed by `dj_rest_auth` after `save` is not modelled.
- Validation of a new email address on a profile update is not modelled.
- AuthUtils.PutCookie: requires a SameSite value Django accepts. An invalid configured value makes `set_cookie` raise ValueError, which is not modelled.
- AuthViews.LoginPost: requires the `SIMPLE_JWT` entries the view indexes directly. A missing entry raises KeyError, which is not modelled; the same holds for `AuthViews.RefreshPost` and `AuthViews.LogoutPost`.
- The request data the refresh view writes into is modelled as mutable. The immutable `QueryDict` of a form-encoded request, whose write raises, is not modelled.
- A flag passed as a non-boolean object is stored by its truthiness. Database coercion of other types is not modelled.
- ContentTasks.ProcessVideo: requires a media root that is absolute with no "." or ".." components, and an original file whose stem is a single non-empty component. `abspath` normalisation for other inputs is not modelled.
- Storage.FieldPath: is a plain `os.path.join`. `safe_join`'s `abspath` and its `SuspiciousFileOperation` for a name that leaves the media root are not modelled.
- ContentSerializers.MediaStorage.Access: models `urljoin(MEDIA_URL, name)` as concatenation. That holds for a MEDIA_URL ending in a slash (Django refuses any other non-empty value) and a stored name without "." or ".." segments; `urljoin`'s resolution of such segments is not modelled.
- Ordering.SortDesc: leaves the database's order among rows with equal upload dates open. The model keeps input order, and only the sorted-permutation property is stated.
- Concurrent jobs and reprocessing races are not modelled.

## Findings

| source | as written | input that shows it | evidently intended | confidence | as-written member | corrected member |
|---|---|---|---|---|---|---|
| video/api/serializers.py:25 | `category` is declared with `source='category'`, its own name; the REST framework's `Field.bind` asserts against that when the list serializer binds its fields for the first item, so the list view raises and answers 500 | any non-empty Video table, e.g. one video without a thumbnail | `category` declared without `source`, as `content/api/serializers.py:21` does, giving the six-key items with the title-cased genre | high; not executed | VideoSerializers.RedundantSourceBreaksList | VideoSerializers.IntendedListItems |
