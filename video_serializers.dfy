/**
 * The list representation of the `video` app. Its thumbnail URL has no
 * exception handler: only the AttributeError that `hasattr` absorbs turns into
 * "no thumbnail".
 */
module VideoSerializers {
  import opened Wrappers
  import opened Http
  import CS = ContentSerializers
  import opened VideoModels

  /**
   * `get_thumbnail_url`: a URL when the thumbnail is set and reading its `url`
   * succeeds, absolute when a request is in the context; nothing when the
   * thumbnail is empty or has no `url`; any other exception propagates.
   */
  function ThumbnailUrl(thumbnail: string, access: CS.UrlAccess, request: Option<CS.Request>): (r: Result<Option<string>, string>)
    ensures r.Failure? <==> thumbnail != "" && access.Raises? && !access.exc.AttributeError?
    ensures r.Failure? ==> r.error == access.message
    ensures r == Success(None) <==> thumbnail == "" || (access.Raises? && access.exc.AttributeError?)
    ensures r.Success? && r.value.Some? ==> access.Url? && CS.EndsWith(r.value.value, access.url)
    ensures r.Success? && r.value.Some? && request.None? ==> r.value.value == access.url
    ensures r.Success? && r.value.Some? && request.Some? ==> r.value.value == CS.BuildAbsoluteUri(request.value, access.url)
  {
    if thumbnail == "" then Success(None)
    else
      match access
      case Url(u) => Success(Some(if request.Some? then CS.BuildAbsoluteUri(request.value, u) else u))
      case Raises(exc, message) => if exc.AttributeError? then Success(None) else Failure(message)
  }

  /**
   * The two revisions' thumbnail URLs differ exactly on a ValueError or
   * OSError: the `content` app answers nothing, the `video` app lets it
   * propagate.
   */
  lemma ThumbnailRevisionsDiffer(thumbnail: string, access: CS.UrlAccess, request: Option<CS.Request>)
    ensures ThumbnailUrl(thumbnail, access, request) != CS.ThumbnailUrl(thumbnail, access, request) <==>
      thumbnail != "" && access.Raises? && (access.exc.ValueError? || access.exc.OSError?)
    ensures thumbnail != "" && access.Raises? && (access.exc.ValueError? || access.exc.OSError?) ==>
      CS.ThumbnailUrl(thumbnail, access, request) == Success(None) &&
      ThumbnailUrl(thumbnail, access, request) == Failure(access.message)
  {
  }

  /** One listed video in the intended representation, or the message of the exception its thumbnail URL raised. */
  function ListItem(v: Video, storage: CS.MediaStorage, request: Option<CS.Request>): (r: Result<Json, string>)
    ensures r.Success? <==> ThumbnailUrl(v.thumbnail, storage.Access(v.thumbnail), request).Success?
  {
    var url := ThumbnailUrl(v.thumbnail, storage.Access(v.thumbnail), request);
    if url.Failure? then Failure(url.error)
    else Success(CS.ItemJson(v.id, v.uploadDate, v.title, v.description, url.value, Category(v.genre)))
  }

  /** The six keys, with `created_at` from the upload date and the title-cased genre as `category`. */
  lemma ListItemFields(v: Video, storage: CS.MediaStorage, request: Option<CS.Request>)
    requires ListItem(v, storage, request).Success?
    ensures var j := ListItem(v, storage, request).value;
      && j.JObject? && j.fields.Keys == CS.ListFields
      && j.fields["id"] == JInt(v.id)
      && j.fields["created_at"] == JTime(v.uploadDate)
      && j.fields["category"] == JStr(Category(v.genre))
      && (v.thumbnail == "" ==> j.fields["thumbnail_url"] == JNull)
  {
  }

  // ---------------------------------------------------------------------------
  // Binding the declared fields

  /** A field declared in the serializer's body: its name, its class, and its `source` argument if one is given. */
  datatype DeclaredField = DeclaredField(name: string, kind: string, source: Option<string>)

  /** The declared fields of `VideoListSerializer` as written, in the order of `Meta.fields`. */
  const DeclaredFields: seq<DeclaredField> := [
    DeclaredField("created_at", "DateTimeField", Some("upload_date")),
    DeclaredField("thumbnail_url", "SerializerMethodField", None),
    DeclaredField("category", "CharField", Some("category"))]

  /** The same fields with `category` declared without a `source`, as the `content` revision declares it. */
  const IntendedFields: seq<DeclaredField> := [
    DeclaredField("created_at", "DateTimeField", Some("upload_date")),
    DeclaredField("thumbnail_url", "SerializerMethodField", None),
    DeclaredField("category", "CharField", None)]

  /** The message of the REST framework's assertion against a `source` that repeats the field's name. */
  function RedundantSource(f: DeclaredField): string {
    RedundantSourceText[0] + f.name + RedundantSourceText[1] + f.kind + RedundantSourceText[2]
  }

  /** The fixed parts of that message, around the field's name and class. */
  const RedundantSourceText: seq<string> := [
    "It is redundant to specify `source='",
    "'` on field '",
    "' in serializer 'VideoListSerializer', because it is the same as the field name. Remove the `source` keyword argument."]

  /** `Field.bind` for each declared field in turn: the first whose `source` is its own name fails the assertion. */
  function BindFields(fields: seq<DeclaredField>): (r: Result<(), string>)
    ensures r.Success? <==> forall f | f in fields :: f.source != Some(f.name)
    ensures r.Failure? ==> exists f | f in fields :: f.source == Some(f.name) && r.error == RedundantSource(f)
  {
    if fields == [] then Success(())
    else if fields[0].source == Some(fields[0].name) then Failure(RedundantSource(fields[0]))
    else BindFields(fields[1..])
  }

  /**
   * `serializer.data` with `many=True` for a list serializer declaring
   * `fields`: the child binds its fields when it represents its first item,
   * so an empty listing never binds them.
   */
  function ListItemsWith(fields: seq<DeclaredField>, videos: seq<Video>, storage: CS.MediaStorage,
                         request: Option<CS.Request>): Result<seq<Json>, string> {
    if videos == [] then Success([])
    else if BindFields(fields).Failure? then Failure(BindFields(fields).error)
    else CS.Collect(videos, v => ListItem(v, storage, request))
  }

  /**
   * The list as written: `category` repeats its own name as `source`, so any
   * non-empty listing raises the framework's AssertionError; only an empty
   * table lists.
   */
  function ListItems(videos: seq<Video>, storage: CS.MediaStorage, request: Option<CS.Request>): (r: Result<seq<Json>, string>)
    ensures r.Success? <==> videos == []
    ensures r.Success? ==> r.value == []
    ensures r.Failure? ==> r.error == RedundantSource(DeclaredFields[2])
  {
    assert DeclaredFields[2].source == Some(DeclaredFields[2].name);
    assert DeclaredFields[0].source != Some(DeclaredFields[0].name);
    assert DeclaredFields[1].source != Some(DeclaredFields[1].name);
    ListItemsWith(DeclaredFields, videos, storage, request)
  }

  /** The list as intended: every video's representation, or the first exception a thumbnail URL raises. */
  function IntendedListItems(videos: seq<Video>, storage: CS.MediaStorage, request: Option<CS.Request>): (r: Result<seq<Json>, string>)
    ensures r.Success? <==> forall i | 0 <= i < |videos| :: ListItem(videos[i], storage, request).Success?
    ensures r.Success? ==> |r.value| == |videos|
    ensures r.Success? ==> forall i | 0 <= i < |videos| :: r.value[i] == ListItem(videos[i], storage, request).value
  {
    assert forall i | 0 <= i < |IntendedFields| :: IntendedFields[i].source != Some(IntendedFields[i].name);
    ListItemsWith(IntendedFields, videos, storage, request)
  }

  /**
   * One video without a thumbnail already shows the difference: the intended
   * list holds its six-key representation, the list as written raises.
   */
  lemma RedundantSourceBreaksList(v: Video, storage: CS.MediaStorage, request: Option<CS.Request>)
    requires v.thumbnail == ""
    ensures ListItems([v], storage, request) == Failure(RedundantSource(DeclaredFields[2]))
    ensures IntendedListItems([v], storage, request).Success?
    ensures IntendedListItems([v], storage, request).value[0].fields.Keys == CS.ListFields
  {
    AsWrittenRaises(v, storage, request);
    EmptyThumbnailLists(v, storage, request);
    IntendedSingleton(v, storage, request);
    ListItemFields(v, storage, request);
  }

  /** The declaration as written fails for any one-video listing. */
  lemma AsWrittenRaises(v: Video, storage: CS.MediaStorage, request: Option<CS.Request>)
    ensures ListItems([v], storage, request) == Failure(RedundantSource(DeclaredFields[2]))
  {
  }

  /** A video without a thumbnail has a representation. */
  lemma EmptyThumbnailLists(v: Video, storage: CS.MediaStorage, request: Option<CS.Request>)
    requires v.thumbnail == ""
    ensures ListItem(v, storage, request).Success?
  {
  }

  /** The intended list of one representable video holds that representation. */
  lemma IntendedSingleton(v: Video, storage: CS.MediaStorage, request: Option<CS.Request>)
    requires ListItem(v, storage, request).Success?
    ensures IntendedListItems([v], storage, request).Success?
    ensures IntendedListItems([v], storage, request).value[0] == ListItem(v, storage, request).value
  {
    var videos := [v];
    assert videos[0] == v;
  }
}
