/**
 * The Video model of the `video` app, the later revision of the catalogue:
 * a 180p/360p/720p/1080p ladder and a category that title-cases the stored
 * genre instead of looking up its label.
 */
module VideoModels {
  import opened Wrappers
  import opened Text
  import ContentModels

  datatype Video = Video(
    id: int,
    title: string,
    description: string,
    originalFile: string,
    thumbnail: string,
    video180p: string,
    video360p: string,
    video720p: string,
    video1080p: string,
    hls180pManifest: string,
    hls360pManifest: string,
    hls720pManifest: string,
    hls1080pManifest: string,
    uploadDate: int,
    genre: string)

  /** This revision's choice table: the key "sci-fi" is labelled "Science Fiction". */
  const GenreChoices: seq<(string, string)> := [
    ("action", "Action"),
    ("comedy", "Comedy"),
    ("drama", "Drama"),
    ("documentary", "Documentary"),
    ("horror", "Horror"),
    ("sci-fi", "Science Fiction"),
    ("thriller", "Thriller"),
    ("romance", "Romance"),
    ("animation", "Animation"),
    ("fantasy", "Fantasy")
  ]

  /** `str.title()` on ASCII text, scanning with whether the previous character was a letter. */
  function TitleFrom(s: string, afterLetter: bool): (r: string)
    ensures |r| == |s|
  {
    if s == [] then []
    else [if afterLetter then Lower(s[0]) else Upper(s[0])] + TitleFrom(s[1..], IsLetter(s[0]))
  }

  /** `str.title()`. */
  function TitleCase(s: string): string {
    TitleFrom(s, false)
  }

  /**
   * The meaning of title-casing, stated character by character: a letter that
   * starts a run of letters is upper-case, every other letter lower-case, and
   * anything else is kept.
   */
  predicate IsTitleOf(r: string, s: string) {
    && |r| == |s|
    && forall i | 0 <= i < |s| ::
         r[i] == (if i > 0 && IsLetter(s[i - 1]) then Lower(s[i]) else Upper(s[i]))
  }

  lemma {:induction false} TitleFromMeaning(s: string, afterLetter: bool)
    ensures |TitleFrom(s, afterLetter)| == |s|
    ensures s != [] ==> TitleFrom(s, afterLetter)[0] == (if afterLetter then Lower(s[0]) else Upper(s[0]))
    ensures forall i | 0 < i < |s| ::
      TitleFrom(s, afterLetter)[i] == (if IsLetter(s[i - 1]) then Lower(s[i]) else Upper(s[i]))
  {
    if s != [] {
      var rest := s[1..];
      TitleFromMeaning(rest, IsLetter(s[0]));
      forall i | 1 < i < |s|
        ensures TitleFrom(s, afterLetter)[i] == (if IsLetter(s[i - 1]) then Lower(s[i]) else Upper(s[i]))
      {
        assert TitleFrom(s, afterLetter)[i] == TitleFrom(rest, IsLetter(s[0]))[i - 1];
        assert rest[i - 1] == s[i] && rest[i - 2] == s[i - 1];
      }
    }
  }

  /** `TitleCase` computes exactly the character-by-character description. */
  lemma TitleCaseMeaning(s: string)
    ensures IsTitleOf(TitleCase(s), s)
  {
    TitleFromMeaning(s, false);
  }

  /** Title-casing keeps the length and the letter positions, and is idempotent. */
  lemma TitleCaseIdempotent(s: string)
    ensures |TitleCase(s)| == |s|
    ensures TitleCase(TitleCase(s)) == TitleCase(s)
  {
    var t := TitleCase(s);
    TitleCaseMeaning(s);
    TitleCaseMeaning(t);
    forall i | 0 <= i < |s|
      ensures IsLetter(t[i]) <==> IsLetter(s[i])
    {
      assert t[i] == (if i > 0 && IsLetter(s[i - 1]) then Lower(s[i]) else Upper(s[i]));
    }
    forall i | 0 <= i < |s|
      ensures TitleCase(t)[i] == t[i]
    {
      if i > 0 && IsLetter(s[i - 1]) {
        assert IsLetter(t[i - 1]);
      } else if i > 0 {
        assert !IsLetter(t[i - 1]);
      }
    }
  }

  /** The `category` property: the genre title-cased, whatever its label says. */
  function Category(genre: string): (c: string)
    ensures IsTitleOf(c, genre)
  {
    TitleCaseMeaning(genre);
    TitleCase(genre)
  }

  /** "sci-fi" becomes "Sci-Fi", as for any title-cased text, and "action" becomes "Action". */
  lemma CategoryExamples()
    ensures Category("sci-fi") == "Sci-Fi"
    ensures Category("action") == "Action"
  {
    var s := "sci-fi";
    var t := TitleCase(s);
    TitleCaseMeaning(s);
    assert !IsLetter(s[3]) && IsLetter(s[2]);
    assert t[0] == 'S' && t[1] == 'c' && t[2] == 'i' && t[3] == '-' && t[4] == 'F' && t[5] == 'i';
    assert TitleCase("action") == "Action";
  }

  /** This revision's ten genre keys are pairwise distinct too. */
  lemma GenreKeysDistinct()
    ensures ContentModels.DistinctKeys(GenreChoices)
  {
  }

  /** The category ignores the choice table: the label of "sci-fi" is "Science Fiction". */
  lemma CategoryIgnoresLabels()
    ensures ContentModels.Display(GenreChoices, "sci-fi") == "Science Fiction"
    ensures Category("sci-fi") != ContentModels.Display(GenreChoices, "sci-fi")
  {
    GenreKeysDistinct();
    ContentModels.DisplayOfKey(GenreChoices, 5);
    CategoryExamples();
  }

  /**
   * `str(video)` of this app's own `Video` model, a separate table from the
   * `content` app's, whose `__str__` also answers the title.
   */
  function Str(v: Video): (s: string)
    ensures s == v.title
  {
    v.title
  }

  /** The manifest lookup over this revision's fields: "480p" names no field here. */
  function ManifestByResolution(v: Video, resolution: string): (m: Option<string>)
    ensures m.Some? <==> resolution in {"180p", "360p", "720p", "1080p"}
    ensures resolution == "180p" ==> m == Some(v.hls180pManifest)
    ensures resolution == "360p" ==> m == Some(v.hls360pManifest)
    ensures resolution == "720p" ==> m == Some(v.hls720pManifest)
    ensures resolution == "1080p" ==> m == Some(v.hls1080pManifest)
    ensures resolution == "480p" ==> m == None
  {
    if resolution == "180p" then Some(v.hls180pManifest)
    else if resolution == "360p" then Some(v.hls360pManifest)
    else if resolution == "720p" then Some(v.hls720pManifest)
    else if resolution == "1080p" then Some(v.hls1080pManifest)
    else None
  }

  /** The ordering key of the list view, `-upload_date`. */
  function UploadDate(v: Video): int {
    v.uploadDate
  }

  /** This revision's Video table, keyed by primary key. */
  class VideoTable {
    var rows: map<int, Video>
    var nextId: int

    ghost predicate Valid()
      reads this
    {
      forall id | id in rows :: rows[id].id == id && id < nextId
    }

    constructor ()
      ensures Valid() && rows == map[] && nextId == 1
    {
      rows := map[];
      nextId := 1;
    }

    /** `serializer.save()` for an upload: a new key, every optional file empty. */
    method Create(title: string, description: string, originalFile: string, genre: string, now: int)
      returns (v: Video)
      requires Valid()
      modifies this
      ensures Valid()
      ensures v.id == old(nextId) && v.id !in old(rows) && nextId == old(nextId) + 1
      ensures v == Video(v.id, title, description, originalFile, "", "", "", "", "", "", "", "", "", now, genre)
      ensures rows == old(rows)[v.id := v]
    {
      v := Video(nextId, title, description, originalFile, "", "", "", "", "", "", "", "", "", now, genre);
      rows := rows[nextId := v];
      nextId := nextId + 1;
    }
  }
}
