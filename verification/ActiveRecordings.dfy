/** The pool of active recordings as an object: one writer per session (internal/recording/recorder.go). */
module ActiveRecordings {
  import opened Recording
  import opened Wrappers
  import Cast

  class RecordingPool {
    var writers: map<string, RecordingWriter>

    ghost predicate Valid()
      reads this, writers.Values
    {
      && (forall k :: k in writers ==> writers[k].Valid() && !writers[k].closed)
      && (forall j, k :: j in writers && k in writers && writers[j] == writers[k] ==> j == k)
    }

    /** The clock has not gone back since any recording last looked at it. */
    ghost predicate Before(now: nat)
      reads this, writers.Values
    {
      forall k :: k in writers ==> writers[k].clock <= now
    }

    constructor ()
      ensures Valid() && writers == map[]
    {
      writers := map[];
    }

    /** `created` is whether the file system let the .cast file be created. */
    method StartRecording(session: string, cols: int, rows: int, title: string, created: bool, now: nat) returns (ok: bool)
      requires Valid()
      modifies this
      ensures Valid() && (ok <==> session !in old(writers) && created)
      ensures !ok ==> writers == old(writers)
      ensures ok ==> session in writers && fresh(writers[session]) && writers == old(writers)[session := writers[session]]
      ensures ok ==> writers[session].chunks == []
                     && writers[session].header == Cast.Header(2, cols, rows, now / 1000000000, title)
    {
      hide Laid, Chunks, Output, TotalBytes, Timely, CutsOneLine, Cast.Since, RecordingWriter.Valid;
      if session in writers {
        return false;
      }
      if !created {
        return false;
      }
      var w := new RecordingWriter(cols, rows, title, now);
      writers := writers[session := w];
      ok := true;
    }

    method StopRecording(session: string, now: nat) returns (ok: bool, durationMs: nat, sizeBytes: nat)
      requires Valid() && Before(now)
      modifies this, writers.Values
      ensures Valid() && (ok <==> session in old(writers)) && writers == old(writers) - {session}
      ensures ok ==> var w := old(writers)[session];
                     && w.Valid() && w.closed && w.chunks == old(w.chunks)
                     && sizeBytes == TotalBytes(w.chunks) && durationMs == Cast.Since(w.startTime, now) / 1000000
      ensures !ok ==> durationMs == 0 && sizeBytes == 0
      ensures forall k :: k in writers ==> writers[k].chunks == old(writers[k].chunks)
    {
      hide Laid, Chunks, Output, TotalBytes, Timely, CutsOneLine, Cast.Since, RecordingWriter.Valid;
      if session !in writers {
        assert writers == writers - {session};
        return false, 0, 0;
      }
      var w := writers[session];
      writers := writers - {session};
      durationMs, sizeBytes := w.Close(now);
      ok := true;
    }

    /** Output of a session that is not recorded is ignored. */
    method WriteIfRecording(session: string, data: string, now: nat, cut: Option<nat>)
      requires Valid() && Before(now)
      modifies writers.Values
      ensures Valid()
      ensures forall k :: k in writers && k != session ==> writers[k].chunks == old(writers[k].chunks)
      ensures session in writers ==>
                var w := writers[session];
                w.chunks == old(w.chunks) + if data != [] && cut.None? then [Cast.Chunk(Cast.Since(w.startTime, now), data)] else []
    {
      hide Laid, Chunks, Output, TotalBytes, Timely, CutsOneLine, Cast.Since, RecordingWriter.Valid;
      if session in writers {
        var w := writers[session];
        w.Write(data, now, cut);
      }
    }

    /** Shutdown closes every recording once and empties the pool. */
    method StopAll(now: nat)
      requires Valid() && Before(now)
      modifies this, writers.Values
      ensures Valid() && writers == map[]
      ensures forall k :: k in old(writers) ==>
        var w := old(writers)[k]; w.Valid() && w.closed && w.chunks == old(w.chunks)
    {
      hide Laid, Chunks, Output, TotalBytes, Timely, CutsOneLine, Cast.Since, RecordingWriter.Valid;
      var left := writers.Keys;
      while left != {}
        invariant left <= writers.Keys && writers == old(writers)
        invariant forall k :: k in writers ==> writers[k].Valid() && writers[k].chunks == old(writers[k].chunks)
        invariant forall k :: k in writers ==> writers[k].closed == (k !in left) && writers[k].clock <= now
        decreases |left|
      {
        var k :| k in left;
        var _, _ := writers[k].Close(now);
        left := left - {k};
      }
      writers := map[];
    }
  }
}
