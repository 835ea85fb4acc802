/**
 * The `content` app's serializers: the upload validation of a new Video, and
 * the list representation of a Video with its thumbnail URL.
 */
module ContentSerializers {
  import opened Wrappers
  import opened Text
  import opened Http
  import opened ContentModels

  // ---------------------------------------------------------------------------
  // Upload validation (`VideoUploadSerializer`)

  /** An uploaded file as the multipart parser hands it over. */
  datatype UploadedFile = UploadedFile(name: string, size: nat)

  /** The form fields of an upload; `None` is a field that was not sent. */
  datatype UploadForm = UploadForm(
    title: Option<string>,
    description: Option<string>,
    originalFile: Option<UploadedFile>,
    genre: Option<string>)

  /** The fields of an upload form. */
  datatype Field = Title | Description | OriginalFile | Genre {
    function Name(): string {
      match this
      case Title => "title"
      case Description => "description"
      case OriginalFile => "original_file"
      case Genre => "genre"
    }
  }

  /** Different fields have different names. */
  lemma NamesDistinct()
    ensures forall f: Field, g: Field | f.Name() == g.Name() :: f == g
  {
  }

  /** The REST framework's reasons for rejecting one field. */
  datatype FieldError =
    | Required
    | Blank
    | TooLong(maxLength: nat)
    | NullCharacters
    | InvalidChoice(value: string)
    | NoFile
    | NoName
    | EmptyFile
    | NameTooLong(maxLength: nat, length: nat)

  /** The fields of a valid upload, as they are written into the new row. */
  datatype ValidUpload = ValidUpload(title: string, description: string, file: UploadedFile, genre: string)

  /**
   * A required text field. Blank after stripping is refused on its own;
   * otherwise every validator runs on the stripped value and each failing one
   * adds its reason: the maximum length first, then the ban on null characters.
   */
  function TextError(value: Option<string>, maxLength: Option<nat>): (e: seq<FieldError>)
    ensures value.None? ==> e == [Required]
    ensures value.Some? && Strip(value.value) == "" ==> e == [Blank]
    ensures value.Some? && Strip(value.value) != "" ==>
      && (maxLength.Some? ==> (TooLong(maxLength.value) in e <==> |Strip(value.value)| > maxLength.value))
      && (NullCharacters in e <==> '\0' in Strip(value.value))
      && (forall x | x in e :: x == NullCharacters || (maxLength.Some? && x == TooLong(maxLength.value)))
      && (|e| == 2 ==> e[0].TooLong? && e[1] == NullCharacters)
    ensures e == [] <==> value.Some? && Strip(value.value) != "" && '\0' !in Strip(value.value)
                         && (maxLength.Some? ==> |Strip(value.value)| <= maxLength.value)
  {
    if value.None? then [Required]
    else
      var v := Strip(value.value);
      if v == "" then [Blank]
      else
        (if maxLength.Some? && |v| > maxLength.value then [TooLong(maxLength.value)] else [])
        + (if '\0' in v then [NullCharacters] else [])
  }

  /** The file field: present, named, non-empty, with a name of at most 255 characters. */
  function FileError(file: Option<UploadedFile>): (e: seq<FieldError>)
    ensures e == [] <==> file.Some? && file.value.name != "" && file.value.size > 0 && |file.value.name| <= FileNameMaxLength
    ensures |e| <= 1
  {
    if file.None? then [NoFile]
    else if file.value.name == "" then [NoName]
    else if file.value.size == 0 then [EmptyFile]
    else if |file.value.name| > FileNameMaxLength then [NameTooLong(FileNameMaxLength, |file.value.name|)]
    else []
  }

  /** The genre: one of the stored keys of the choice table, compared exactly. */
  function GenreError(genre: Option<string>, keys: set<string>): (e: seq<FieldError>)
    ensures e == [] <==> genre.Some? && genre.value in keys
    ensures genre.Some? && genre.value !in keys ==> e == [InvalidChoice(genre.value)]
  {
    if genre.None? then [Required]
    else if genre.value !in keys then [InvalidChoice(genre.value)]
    else []
  }

  /** The failing fields of a form, each with its reasons. */
  function UploadErrors(form: UploadForm, keys: set<string>): (errors: map<Field, seq<FieldError>>)
    ensures forall f: Field :: f in errors <==> FieldCheck(form, keys, f) != []
    ensures forall f | f in errors :: errors[f] == FieldCheck(form, keys, f)
  {
    map f | FieldCheck(form, keys, f) != [] :: FieldCheck(form, keys, f)
  }

  /** The checks of one field. */
  function FieldCheck(form: UploadForm, keys: set<string>, f: Field): seq<FieldError> {
    match f
    case Title => TextError(form.title, Some(TitleMaxLength))
    case Description => TextError(form.description, None)
    case OriginalFile => FileError(form.originalFile)
    case Genre => GenreError(form.genre, keys)
  }

  /**
   * `serializer.is_valid()` and `validated_data` for a model whose genre keys
   * are `keys`: the errors of every failing field, or the cleaned fields.
   */
  function ValidateUpload(form: UploadForm, keys: set<string>): (r: Result<ValidUpload, map<Field, seq<FieldError>>>)
    ensures r.Failure? ==> r.error == UploadErrors(form, keys) && r.error != map[]
    ensures r.Success? ==> UploadErrors(form, keys) == map[]
    ensures r.Success? ==>
      && form.title.Some? && r.value.title == Strip(form.title.value)
      && 0 < |r.value.title| <= TitleMaxLength && '\0' !in r.value.title
      && form.description.Some? && r.value.description == Strip(form.description.value)
      && r.value.description != "" && '\0' !in r.value.description
      && form.originalFile == Some(r.value.file)
      && form.genre == Some(r.value.genre) && r.value.genre in keys
  {
    var errors := UploadErrors(form, keys);
    if errors != map[] then Failure(errors)
    else
      assert Title !in errors && Description !in errors && Genre !in errors && OriginalFile !in errors;
      Success(ValidUpload(Strip(form.title.value), Strip(form.description.value),
                          form.originalFile.value, form.genre.value))
  }

  /** The REST framework's and Django's message for each rejection. */
  function ErrorMessage(e: FieldError): string {
    match e
    case Required => "This field is required."
    case Blank => "This field may not be blank."
    case TooLong(n) => "Ensure this field has no more than " + NatToString(n) + " characters."
    case NullCharacters => "Null characters are not allowed."
    case InvalidChoice(v) => "\"" + v + "\" is not a valid choice."
    case NoFile => "No file was submitted."
    case NoName => "No filename could be determined."
    case EmptyFile => "The submitted file is empty."
    case NameTooLong(n, len) =>
      "Ensure this filename has at most " + NatToString(n) + " characters (it has " + NatToString(len) + ")."
  }

  /** The messages of one field's reasons, in order. */
  function Messages(es: seq<FieldError>): (j: seq<Json>)
    ensures |j| == |es|
    ensures forall i | 0 <= i < |es| :: j[i] == JStr(ErrorMessage(es[i]))
  {
    if es == [] then [] else [JStr(ErrorMessage(es[0]))] + Messages(es[1..])
  }

  /** `serializer.errors`: each failing field with the list of its messages. */
  function ErrorsJson(errors: map<Field, seq<FieldError>>): (j: Json)
    ensures j.JObject? && j.fields.Keys == set f | f in errors :: f.Name()
    ensures forall f | f in errors :: j.fields[f.Name()] == JList(Messages(errors[f]))
  {
    NamesDistinct();
    JObject(map f | f in errors :: f.Name() := JList(Messages(errors[f])))
  }

  /** An over-long title is refused with a reason for `title`, whatever the other fields hold. */
  lemma LongTitleRejected(form: UploadForm, keys: set<string>)
    requires form.title.Some? && |Strip(form.title.value)| > TitleMaxLength
    ensures ValidateUpload(form, keys).Failure? && Title in ValidateUpload(form, keys).error
  {
  }

  /**
   * A title holding a null character anywhere is refused with that reason for
   * `title`: stripping removes only whitespace, so the character survives it.
   */
  lemma NullCharacterRejected(form: UploadForm, keys: set<string>)
    requires form.title.Some? && '\0' in form.title.value
    ensures ValidateUpload(form, keys).Failure?
    ensures Title in ValidateUpload(form, keys).error && NullCharacters in ValidateUpload(form, keys).error[Title]
  {
    var v := form.title.value;
    var k :| 0 <= k < |v| && v[k] == '\0';
    StripIsMiddle(v);
    assert !IsSpace(v[k]);
    assert Strip(v)[k - StripStart(v)] == '\0';
  }

  /** A genre outside the ten keys of the `content` model is refused with a reason for `genre`. */
  lemma UnknownGenreRejected(form: UploadForm)
    requires form.genre.Some? && form.genre.value !in Keys(GenreChoices)
    ensures ValidateUpload(form, Keys(GenreChoices)).Failure?
    ensures ValidateUpload(form, Keys(GenreChoices)).error[Genre] == [InvalidChoice(form.genre.value)]
  {
  }

  // ---------------------------------------------------------------------------
  // The list representation (`VideoListSerializer`)

  /** The exceptions reading `thumbnail.url` can raise, as far as the handler tells them apart. */
  datatype Raised = ValueError | OSError | AttributeError | OtherError(name: string)

  /** What reading `thumbnail.url` does: yield a URL, or raise with a message. */
  datatype UrlAccess = Url(url: string) | Raises(exc: Raised, message: string)

  /** The characters `filepath_to_uri` leaves unquoted besides letters, digits and `_.-~`. */
  const UriSafe: string := "/~!*()'"

  /** `filepath_to_uri(name)`: backslashes become slashes, then `quote(..., safe="/~!*()'")`. */
  function FilepathToUri(name: string): (u: string)
    ensures (forall i | 0 <= i < |name| :: Unreserved(name[i], UriSafe)) ==> u == name
  {
    var slashed := seq(|name|, i requires 0 <= i < |name| => if name[i] == '\\' then '/' else name[i]);
    assert (forall i | 0 <= i < |name| :: Unreserved(name[i], UriSafe)) ==> slashed == name;
    QuoteWith(slashed, UriSafe)
  }

  /** `s.lstrip('/')`. */
  function LStripSlashes(s: string): (r: string)
    ensures |r| <= |s| && r == s[|s| - |r|..]
    ensures r == [] || r[0] != '/'
  {
    if s != [] && s[0] == '/' then LStripSlashes(s[1..]) else s
  }

  /**
   * The storage behind `FieldFile.url`: `FileSystemStorage.url` joins MEDIA_URL
   * with the name turned into a URI path, except for the names it raises on.
   */
  datatype MediaStorage = MediaStorage(mediaUrl: string, raising: map<string, (Raised, string)>) {
    function Access(name: string): (a: UrlAccess)
      ensures name in raising <==> a.Raises?
      ensures a.Url? ==> a.url == mediaUrl + LStripSlashes(FilepathToUri(name))
    {
      if name in raising then Raises(raising[name].0, raising[name].1)
      else Url(mediaUrl + LStripSlashes(FilepathToUri(name)))
    }
  }

  /** A relative name of letters, digits and `_.-~/` keeps its spelling in the URL. */
  lemma PlainNameUrl(storage: MediaStorage, name: string)
    requires name !in storage.raising
    requires name == [] || name[0] != '/'
    requires forall i | 0 <= i < |name| :: Unreserved(name[i], "/")
    ensures storage.Access(name) == Url(storage.mediaUrl + name)
  {
    assert forall i | 0 <= i < |name| :: Unreserved(name[i], UriSafe);
  }

  /** Below MEDIA_URL the URL holds only unquoted characters and percent escapes. */
  lemma UrlIsQuoted(storage: MediaStorage, name: string)
    requires name !in storage.raising
    ensures var u := storage.Access(name).url;
      && |storage.mediaUrl| <= |u| && u[..|storage.mediaUrl|] == storage.mediaUrl
      && forall i | |storage.mediaUrl| <= i < |u| :: Unreserved(u[i], UriSafe) || u[i] == '%' || IsUpperHex(u[i])
  {
    var slashed := seq(|name|, i requires 0 <= i < |name| => if name[i] == '\\' then '/' else name[i]);
    QuotedIsSafe(slashed, UriSafe);
    var q := FilepathToUri(name);
    var tail := LStripSlashes(q);
    assert forall i | 0 <= i < |tail| :: tail[i] == q[|q| - |tail| + i];
  }

  /** A non-ASCII letter is sent as the percent escapes of its UTF-8 bytes: "Ü" becomes "%C3%9C". */
  lemma UmlautEscaped(storage: MediaStorage, name: string)
    requires name !in storage.raising && name == "\U{DC}"
    ensures storage.Access(name) == Url(storage.mediaUrl + "%C3%9C")
  {
    var slashed := seq(|name|, i requires 0 <= i < |name| => if name[i] == '\\' then '/' else name[i]);
    assert slashed == name;
    assert !Unreserved(name[0], UriSafe);
    assert Utf8(name[0]) == [0xC3, 0x9C];
    assert PercentBytes([0x9C]) == ['%', '9', 'C'];
    assert PercentBytes([0xC3, 0x9C]) == "%C3%9C";
    assert QuoteWith(name, UriSafe) == "%C3%9C" + QuoteWith([], UriSafe);
  }

  /** The request in the serializer context: its scheme and host, and the directory of its path. */
  datatype Request = Request(origin: string, directory: string)

  predicate HasScheme(location: string) {
    StartsWith(location, "http://") || StartsWith(location, "https://")
  }

  predicate EndsWith(s: string, suffix: string) {
    |suffix| <= |s| && s[|s| - |suffix|..] == suffix
  }

  /** `request.build_absolute_uri(location)`: a location with a scheme is kept, any other is placed under the request's origin. */
  function BuildAbsoluteUri(request: Request, location: string): (uri: string)
    ensures EndsWith(uri, location)
    ensures HasScheme(location) ==> uri == location
    ensures !HasScheme(location) ==> StartsWith(uri, request.origin)
  {
    if HasScheme(location) then location
    else if StartsWith(location, "/") then request.origin + location
    else request.origin + request.directory + location
  }

  /**
   * `get_thumbnail_url`. An empty thumbnail gives nothing. `hasattr` turns an
   * AttributeError into "no url", and the handler turns ValueError and OSError
   * into nothing; any other exception propagates, as `Failure` with its message.
   */
  function ThumbnailUrl(thumbnail: string, access: UrlAccess, request: Option<Request>): (r: Result<Option<string>, string>)
    ensures r.Failure? <==> thumbnail != "" && access.Raises? && access.exc.OtherError?
    ensures r.Failure? ==> r.error == access.message
    ensures r == Success(None) <==> thumbnail == "" || (access.Raises? && !access.exc.OtherError?)
    ensures r.Success? && r.value.Some? ==> access.Url? && EndsWith(r.value.value, access.url)
    ensures r.Success? && r.value.Some? && request.None? ==> r.value.value == access.url
    ensures r.Success? && r.value.Some? && request.Some? ==> r.value.value == BuildAbsoluteUri(request.value, access.url)
  {
    if thumbnail == "" then Success(None)
    else
      match access
      case Url(u) => Success(Some(if request.Some? then BuildAbsoluteUri(request.value, u) else u))
      case Raises(exc, message) => if exc.OtherError? then Failure(message) else Success(None)
  }

  /** The six keys of a listed video. */
  const ListFields: set<string> := {"id", "created_at", "title", "description", "thumbnail_url", "category"}

  function OptionJson(s: Option<string>): Json {
    if s.Some? then JStr(s.value) else JNull
  }

  /** One listed video, or the message of the exception its thumbnail URL raised. */
  function ListItem(v: Video, storage: MediaStorage, request: Option<Request>): (r: Result<Json, string>)
    ensures r.Success? <==> ThumbnailUrl(v.thumbnail, storage.Access(v.thumbnail), request).Success?
  {
    var url := ThumbnailUrl(v.thumbnail, storage.Access(v.thumbnail), request);
    if url.Failure? then Failure(url.error)
    else Success(ItemJson(v.id, v.uploadDate, v.title, v.description, url.value, Category(v.genre)))
  }

  /** The six keys of a listed video, shared by both revisions of the list serializer. */
  function ItemJson(id: int, uploadDate: int, title: string, description: string,
                    url: Option<string>, category: string): (j: Json)
    ensures j.JObject? && j.fields.Keys == ListFields
    ensures j.fields["id"] == JInt(id) && j.fields["created_at"] == JTime(uploadDate)
    ensures j.fields["title"] == JStr(title) && j.fields["description"] == JStr(description)
    ensures j.fields["thumbnail_url"] == OptionJson(url) && j.fields["category"] == JStr(category)
  {
    JObject(map[
      "id" := JInt(id),
      "created_at" := JTime(uploadDate),
      "title" := JStr(title),
      "description" := JStr(description),
      "thumbnail_url" := OptionJson(url),
      "category" := JStr(category)])
  }

  /**
   * A listed video has exactly the six keys; `created_at` is the upload date,
   * `category` the genre's display label, and an empty thumbnail lists as null.
   */
  lemma ListItemFields(v: Video, storage: MediaStorage, request: Option<Request>)
    requires ListItem(v, storage, request).Success?
    ensures var j := ListItem(v, storage, request).value;
      && j.JObject? && j.fields.Keys == ListFields
      && j.fields["id"] == JInt(v.id)
      && j.fields["created_at"] == JTime(v.uploadDate)
      && j.fields["title"] == JStr(v.title)
      && j.fields["description"] == JStr(v.description)
      && j.fields["category"] == JStr(Category(v.genre))
      && (v.thumbnail == "" ==> j.fields["thumbnail_url"] == JNull)
  {
  }

  /**
   * `ListSerializer.to_representation`: the child representation of every
   * item in order, or the exception of the first item whose representation
   * raises.
   */
  function Collect<T>(items: seq<T>, child: T -> Result<Json, string>): (r: Result<seq<Json>, string>)
    ensures r.Success? <==> forall i | 0 <= i < |items| :: child(items[i]).Success?
    ensures r.Success? ==> |r.value| == |items|
    ensures r.Success? ==> forall i | 0 <= i < |items| :: r.value[i] == child(items[i]).value
    ensures r.Failure? ==> exists i | 0 <= i < |items| ::
      && child(items[i]).Failure? && r.error == child(items[i]).error
      && forall j | 0 <= j < i :: child(items[j]).Success?
  {
    if items == [] then Success([])
    else
      var head := child(items[0]);
      if head.Failure? then Failure(head.error)
      else
        var tail := items[1..];
        var rest := Collect(tail, child);
        assert forall i | 1 <= i < |items| :: tail[i - 1] == items[i];
        if rest.Failure? then
          var k :| 0 <= k < |tail| && child(tail[k]).Failure? && rest.error == child(tail[k]).error
            && forall j | 0 <= j < k :: child(tail[j]).Success?;
          assert items[k + 1] == tail[k];
          Failure(rest.error)
        else
          var values := [head.value] + rest.value;
          assert forall i | 1 <= i < |items| :: values[i] == rest.value[i - 1];
          Success(values)
  }

  /** `serializer.data` with `many=True` over the `content` list serializer. */
  function ListItems(videos: seq<Video>, storage: MediaStorage, request: Option<Request>): (r: Result<seq<Json>, string>)
    ensures r.Success? <==> forall i | 0 <= i < |videos| :: ListItem(videos[i], storage, request).Success?
    ensures r.Success? ==> |r.value| == |videos|
    ensures r.Success? ==> forall i | 0 <= i < |videos| :: r.value[i] == ListItem(videos[i], storage, request).value
  {
    Collect(videos, v => ListItem(v, storage, request))
  }
}
