/**
 * The `content` app's Video model: its fields, the genre choice table, the
 * display helpers, and the table of rows with the instances loaded from it.
 */
module ContentModels {
  import opened Wrappers

  /**
   * One row of the Video table. File fields hold the stored name relative to
   * MEDIA_ROOT; "" is an empty (unset or null) field. `uploadDate` is the
   * creation timestamp.
   */
  datatype Video = Video(
    id: int,
    title: string,
    description: string,
    originalFile: string,
    thumbnail: string,
    video480p: string,
    video720p: string,
    video1080p: string,
    hls480pManifest: string,
    hls720pManifest: string,
    hls1080pManifest: string,
    uploadDate: int,
    genre: string)

  const TitleMaxLength: nat := 255
  const FileNameMaxLength: nat := 255
  const GenreMaxLength: nat := 50

  /** The stored genre keys with their display labels, in declaration order. */
  const GenreChoices: seq<(string, string)> := [
    ("action", "Action"),
    ("comedy", "Comedy"),
    ("drama", "Drama"),
    ("documentary", "Documentary"),
    ("horror", "Horror"),
    ("sci_fi", "Sci-Fi"),
    ("thriller", "Thriller"),
    ("romance", "Romance"),
    ("animation", "Animation"),
    ("fantasy", "Fantasy")
  ]

  function Keys(choices: seq<(string, string)>): (ks: set<string>)
    ensures forall i | 0 <= i < |choices| :: choices[i].0 in ks
    ensures forall k | k in ks :: exists i | 0 <= i < |choices| :: choices[i].0 == k
  {
    set i | 0 <= i < |choices| :: choices[i].0
  }

  predicate DistinctKeys(choices: seq<(string, string)>) {
    forall i, j | 0 <= i < j < |choices| :: choices[i].0 != choices[j].0
  }

  /**
   * `get_FOO_display()`: `dict(choices).get(value, value)`; building the dict
   * lets a later pair win over an earlier one with the same key.
   */
  function Display(choices: seq<(string, string)>, value: string): (shown: string)
    ensures value !in Keys(choices) ==> shown == value
  {
    if choices == [] then value
    else if choices[|choices| - 1].0 == value then choices[|choices| - 1].1
    else
      assert forall i | 0 <= i < |choices| - 1 :: choices[..|choices| - 1][i] == choices[i];
      Display(choices[..|choices| - 1], value)
  }

  /** The `category` property: the display label of the genre. */
  function Category(genre: string): string {
    Display(GenreChoices, genre)
  }

  /** `str(video)`. */
  function Str(v: Video): (s: string)
    ensures s == v.title
  {
    v.title
  }

  /** The stored upload date, the ordering key of `Meta.ordering = ['-upload_date']`. */
  function UploadDate(v: Video): int {
    v.uploadDate
  }

  // ---------------------------------------------------------------------------
  // Lemmas about the choice table

  /** The ten genre keys are pairwise distinct, so key to label is a function. */
  lemma GenreKeysDistinct()
    ensures DistinctKeys(GenreChoices)
  {
  }

  /** With distinct keys, the display of each key is the label paired with it. */
  lemma {:induction false} DisplayOfKey(choices: seq<(string, string)>, i: int)
    requires DistinctKeys(choices) && 0 <= i < |choices|
    ensures Display(choices, choices[i].0) == choices[i].1
    decreases |choices|
  {
    var n := |choices| - 1;
    if i < n {
      assert choices[n].0 != choices[i].0;
      var prefix := choices[..n];
      assert prefix[i] == choices[i];
      DisplayOfKey(prefix, i);
    }
  }

  /** Every genre key maps to its own label, e.g. "sci_fi" to "Sci-Fi"; any other value is shown as is. */
  lemma CategoryOfGenre(genre: string)
    ensures forall i | 0 <= i < |GenreChoices| :: Category(GenreChoices[i].0) == GenreChoices[i].1
    ensures genre !in Keys(GenreChoices) ==> Category(genre) == genre
    ensures Category("sci_fi") == "Sci-Fi"
  {
    GenreKeysDistinct();
    forall i | 0 <= i < |GenreChoices|
      ensures Category(GenreChoices[i].0) == GenreChoices[i].1
    {
      DisplayOfKey(GenreChoices, i);
    }
    assert GenreChoices[5] == ("sci_fi", "Sci-Fi");
  }

  /** `setattr(video, f'hls_{res}p_manifest', path)`: any other height names no model field and is not stored. */
  function WithHlsManifest(v: Video, res: nat, path: string): (w: Video)
    ensures res == 480 ==> w == v.(hls480pManifest := path)
    ensures res == 720 ==> w == v.(hls720pManifest := path)
    ensures res == 1080 ==> w == v.(hls1080pManifest := path)
    ensures res !in {480, 720, 1080} ==> w == v
  {
    if res == 480 then v.(hls480pManifest := path)
    else if res == 720 then v.(hls720pManifest := path)
    else if res == 1080 then v.(hls1080pManifest := path)
    else v
  }

  /** A model instance loaded from the table; the background job changes it before saving it back. */
  class VideoInstance {
    var state: Video

    constructor (row: Video)
      ensures state == row
    {
      state := row;
    }

    method SetHlsManifest(res: nat, path: string)
      modifies this
      ensures state == WithHlsManifest(old(state), res, path)
    {
      state := WithHlsManifest(state, res, path);
    }

    method SetThumbnail(name: string)
      modifies this
      ensures state == old(state).(thumbnail := name)
    {
      state := state.(thumbnail := name);
    }
  }

  /** The Video table, keyed by primary key. */
  class VideoTable {
    var rows: map<int, Video>
    var nextId: int

    ghost predicate Valid()
      reads this
    {
      forall id | id in rows :: rows[id].id == id && id < nextId
    }

    constructor ()
      ensures Valid() && rows == map[] && nextId == 1
    {
      rows := map[];
      nextId := 1;
    }

    /** `Video.objects.get(pk=id)`: a fresh instance, or `DoesNotExist`. */
    method Get(id: int) returns (v: Option<VideoInstance>)
      ensures v.None? <==> id !in rows
      ensures v.Some? ==> fresh(v.value) && v.value.state == rows[id]
    {
      if id in rows {
        var inst := new VideoInstance(rows[id]);
        v := Some(inst);
      } else {
        v := None;
      }
    }

    /** `instance.save()`: writes every field of the instance under its primary key. */
    method Save(inst: VideoInstance)
      requires Valid()
      modifies this
      ensures Valid()
      ensures rows == old(rows)[inst.state.id := inst.state]
      ensures nextId == if inst.state.id < old(nextId) then old(nextId) else inst.state.id + 1
    {
      rows := rows[inst.state.id := inst.state];
      if inst.state.id >= nextId {
        nextId := inst.state.id + 1;
      }
    }

    /** `Video.objects.create(...)` for an upload: a new key, the optional files empty. */
    method Create(title: string, description: string, originalFile: string, genre: string, now: int)
      returns (v: Video)
      requires Valid()
      modifies this
      ensures Valid()
      ensures v.id == old(nextId) && v.id !in old(rows) && nextId == old(nextId) + 1
      ensures v == Video(v.id, title, description, originalFile, "", "", "", "", "", "", "", now, genre)
      ensures rows == old(rows)[v.id := v]
    {
      v := Video(nextId, title, description, originalFile, "", "", "", "", "", "", "", now, genre);
      rows := rows[nextId := v];
      nextId := nextId + 1;
    }
  }
}
