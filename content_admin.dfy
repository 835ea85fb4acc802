/**
 * The admin page of the `content` app: the HLS status and thumbnail columns of
 * the video list, and the action that queues the selected videos again.
 */
module ContentAdmin {
  import opened Text
  import opened ContentModels
  import Storage

  /** The three manifest fields the status column looks at, in ladder order. */
  function Manifests(v: Video): seq<string> {
    [v.hls480pManifest, v.hls720pManifest, v.hls1080pManifest]
  }

  /** `sum(1 for field in fields if field)`: the number of non-empty fields. */
  function CountSet(fields: seq<string>): (n: nat)
    ensures n <= |fields|
    ensures n == 0 <==> forall i | 0 <= i < |fields| :: fields[i] == ""
    ensures n == |fields| <==> forall i | 0 <= i < |fields| :: fields[i] != ""
  {
    if fields == [] then 0
    else
      assert forall i | 1 <= i < |fields| :: fields[1..][i - 1] == fields[i];
      (if fields[0] != "" then 1 else 0) + CountSet(fields[1..])
  }

  /** The number of renditions whose manifest is recorded. */
  function ProcessedCount(v: Video): (n: nat)
    ensures n <= 3
    ensures n == 0 <==> v.hls480pManifest == "" && v.hls720pManifest == "" && v.hls1080pManifest == ""
    ensures n == 3 <==> v.hls480pManifest != "" && v.hls720pManifest != "" && v.hls1080pManifest != ""
  {
    var fields := Manifests(v);
    assert fields[0] == v.hls480pManifest && fields[1] == v.hls720pManifest && fields[2] == v.hls1080pManifest;
    CountSet(fields)
  }

  /** The "Partial (n/3)" label. */
  function PartialLabel(n: nat): string {
    "Partial (" + NatToString(n) + "/3)"
  }

  /**
   * `hls_status`: "Pending" when no manifest is recorded, "Complete" when all
   * three are, and "Partial (n/3)" with the count otherwise.
   */
  function HlsStatus(v: Video): (s: string)
    ensures s == "Pending" <==> ProcessedCount(v) == 0
    ensures s == "Complete" <==> ProcessedCount(v) == 3
    ensures 0 < ProcessedCount(v) < 3 ==> s == PartialLabel(ProcessedCount(v))
  {
    var n := ProcessedCount(v);
    if n == 0 then "Pending"
    else if n == 3 then "Complete"
    else
      var s := PartialLabel(n);
      assert s[1] == 'a' && s[0] == 'P';
      s
  }

  /** A row the job has completed for shows "Complete"; a row never processed shows "Pending". */
  lemma StatusOfRows(v: Video)
    ensures v.hls480pManifest != "" && v.hls720pManifest != "" && v.hls1080pManifest != "" ==> HlsStatus(v) == "Complete"
    ensures v.hls480pManifest == "" && v.hls720pManifest == "" && v.hls1080pManifest == "" ==> HlsStatus(v) == "Pending"
    ensures HlsStatus(v) != "Pending" && HlsStatus(v) != "Complete" ==>
      HlsStatus(v) == PartialLabel(1) || HlsStatus(v) == PartialLabel(2)
  {
  }

  /** `has_thumbnail`: a thumbnail file is recorded. */
  function HasThumbnail(v: Video): (b: bool)
    ensures b <==> v.thumbnail != ""
  {
    v.thumbnail != ""
  }

  /** The ids of a selection, in order. */
  function Ids(videos: seq<Video>): (ids: seq<int>)
    ensures |ids| == |videos|
    ensures forall i | 0 <= i < |videos| :: ids[i] == videos[i].id
  {
    seq(|videos|, i requires 0 <= i < |videos| => videos[i].id)
  }

  /** The message the action reports for `count` queued videos. */
  function QueuedMessage(count: nat): string {
    NatToString(count) + " video(s) queued for HLS reprocessing."
  }

  /**
   * `reprocess_hls`: one processing job per selected video, in selection
   * order, and a message whose count is the number of videos selected.
   */
  method ReprocessHls(queue: Storage.JobQueue, queryset: seq<Video>) returns (message: string)
    modifies queue
    ensures queue.pending == old(queue.pending) + Ids(queryset)
    ensures message == QueuedMessage(|queryset|)
  {
    var count := 0;
    for i := 0 to |queryset|
      invariant count == i
      invariant queue.pending == old(queue.pending) + Ids(queryset[..i])
    {
      queue.Delay(queryset[i].id);
      count := count + 1;
      assert Ids(queryset[..i + 1]) == Ids(queryset[..i]) + [queryset[i].id];
    }
    assert queryset[..|queryset|] == queryset;
    message := QueuedMessage(count);
  }
}
