/**
 * The two shared resources of the pipeline: the media files under MEDIA_ROOT
 * and the queue of background jobs.
 */
module Storage {
  import opened Paths

  /**
   * `FieldFile.path`: the stored name placed under the media root, as a plain
   * join; `safe_join`'s normalisation and its refusal of names that leave the
   * root are not modelled.
   */
  function FieldPath(mediaRoot: string, name: string): (p: string)
    ensures !IsAbs(name) ==> |mediaRoot| <= |p| && p[..|mediaRoot|] == mediaRoot
    ensures Basename(p) == Basename(name)
  {
    BasenameOfJoin(mediaRoot, name);
    Join(mediaRoot, name)
  }

  /** The regular files that exist on disk, by absolute path. */
  class MediaFiles {
    var files: set<string>

    constructor (files: set<string>)
      ensures this.files == files
    {
      this.files := files;
    }

    /** An external program wrote `written`; nothing is ever removed. */
    method Write(written: set<string>)
      modifies this
      ensures files == old(files) + written
    {
      files := files + written;
    }
  }

  /** The job queue: `process_video.delay(id)` appends one job for `id`. */
  class JobQueue {
    var pending: seq<int>

    constructor ()
      ensures pending == []
    {
      pending := [];
    }

    method Delay(videoId: int)
      modifies this
      ensures pending == old(pending) + [videoId]
    {
      pending := pending + [videoId];
    }
  }
}
