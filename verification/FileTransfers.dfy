/** The file transfer session of lib/storage/transfer.cpp over an abstract volume. */
module FileTransfers {
  import opened Bytes
  import opened Record
  import opened Layouts
  import Crc32

  type Path = seq<byte>

  // Results of the filesystem and the statuses they map to.
  datatype Status = Ok | Denied | Busy | NotReady | ReadOnly | Exists | NotFound | Invalid | IoError | ChecksumError
                  | CleanupFailed | Timeout

  datatype Op =
    Upload | Download | List | Remove | MakeDirectory | RemoveDirectory | Write | Finish | NextEntry | Read | Unknown

  datatype Request = Request(op: Op, arg0: u32, arg1: u32, payload: seq<byte>)

  // What the volume answers: the lease, the operation itself, how many bytes a
  // write or read moved, and whether a listing goes on; then close and remove.
  datatype Env = Env(lease: Status, result: Status, count: nat, more: bool, close: Status, remove: Status)

  const PATH_CAPACITY: nat := 255
  const CHUNK: nat := 1024

  datatype State = Receiving | Executing | Cleaning

  datatype Reply = Reply(status: Status, offset: nat, crc: int, payload: seq<byte>)

  function Sum(bytes: seq<byte>): int { Standard32(0, bytes) }

  lemma SumGrows(a: seq<byte>, b: seq<byte>)
    ensures Standard32(Sum(a), b) == Sum(a + b)
  {
    hide Standard32;
    StandardSplits();
  }

  predicate PathGood(payload: seq<byte>) {
    payload != [] && |payload| <= PATH_CAPACITY && 0 !in payload
  }

  predicate Begins(op: Op) { op in {Upload, Download, List, Remove, MakeDirectory, RemoveDirectory} }

  // A path, and no arguments but those of an upload.
  predicate WellAsked(r: Request) { PathGood(r.payload) && (r.op == Upload || (r.arg0 == 0 && r.arg1 == 0)) }

  // The volume differs from `before` only by this session's own file.
  ghost predicate OwnFile(files: map<Path, seq<byte>>, before: map<Path, seq<byte>>, path: Path) {
    path !in before && path in files && files == before[path := files[path]]
  }

  // What has been acknowledged fits the declared size, and its checksum is kept.
  ghost predicate Tallied(acked: seq<byte>, offset: nat, size: nat, crc: int) {
    offset == |acked| <= size && crc == Sum(acked)
  }

  // A download in progress: the file has been read up to offset.
  ghost predicate Downloading(files: map<Path, seq<byte>>, path: Path, size: nat, offset: nat, crc: int) {
    path in files && size == |files[path]| && offset <= size && crc == Sum(files[path][..offset])
  }

  // The acknowledged bytes after a request: an answered upload starts anew, an answered
  // write adds its payload.
  ghost function Acknowledged(acked: seq<byte>, r: Request, answered: bool): seq<byte> {
    if answered && r.op == Upload then [] else if answered && r.op == Write then acked + r.payload else acked
  }

  // How an upload ends. Ok means that the file is closed and synchronized and holds
  // exactly the acknowledged bytes, of the declared size and checksum.
  ghost predicate Stored(files: map<Path, seq<byte>>, path: Path, acked: seq<byte>, size: nat, expected: int) {
    path in files && files[path] == acked && |acked| == size && Sum(acked) == expected
  }

  lemma OwnFileWritten(files: map<Path, seq<byte>>, before: map<Path, seq<byte>>, path: Path, content: seq<byte>)
    requires OwnFile(files, before, path)
    ensures OwnFile(files[path := content], before, path)
  {}

  lemma OwnFileHas(files: map<Path, seq<byte>>, before: map<Path, seq<byte>>, path: Path)
    requires OwnFile(files, before, path)
    ensures path in files
  {}

  lemma OwnFileCreated(files: map<Path, seq<byte>>, path: Path)
    requires path !in files
    ensures OwnFile(files[path := []], files, path)
  {}

  lemma DownloadStarts(files: map<Path, seq<byte>>, path: Path)
    requires path in files
    ensures Downloading(files, path, |files[path]|, 0, 0)
  {
    hide Sum;
    EmptySum();
    assert files[path][..0] == [];
  }

  lemma OwnFileRemoved(files: map<Path, seq<byte>>, before: map<Path, seq<byte>>, path: Path)
    requires OwnFile(files, before, path)
    ensures files - {path} == before
  {
    assert (before[path := files[path]] - {path}).Keys == before.Keys;
  }

  class FileTransfer {
    var state: State
    var request: Option<Request>
    var reply: Option<Reply>
    var status: Status
    var failures: nat
    var leased: bool
    var isOpen: bool
    var created: bool
    var uploading: bool
    var listing: bool
    var disconnected: bool
    var path: Path
    var size: nat
    var expected: int
    var offset: nat
    var crc: int
    // The volume: its files, and whether the open one has been synchronized.
    var files: map<Path, seq<byte>>
    var synced: bool
    // The files when the upload began, the payload bytes acknowledged since, and
    // how often the volume was reserved and released.
    ghost var before: map<Path, seq<byte>>
    ghost var acked: seq<byte>
    ghost var reserves: nat
    ghost var releases: nat

    ghost predicate Valid()
      reads this
    {
      && reserves == releases + (if leased then 1 else 0)
      && (isOpen ==> leased) && (created ==> isOpen && uploading && !listing) && (isOpen && uploading ==> created)
      && (created ==>
          OwnFile(files, before, path) && Tallied(acked, offset, size, crc)
            && (state != Cleaning || status == Ok ==> files[path] == acked))
      && (state != Cleaning && isOpen && !uploading && !listing ==> Downloading(files, path, size, offset, crc))
      && (state != Cleaning && leased ==> isOpen)
      && (state == Executing ==> request.Some? && reply.None?)
      && (state == Cleaning && status == Ok && created ==> synced && |acked| == size && Sum(acked) == expected)
    }

    constructor (files: map<Path, seq<byte>>)
      ensures Valid() && this.files == files && !leased && state == Receiving && reserves == 0
    {
      this.files := files;
      state, request, reply, status, failures := Receiving, None, None, Ok, 0;
      leased, isOpen, created, uploading, listing, disconnected := false, false, false, false, false, false;
      path, size, expected, offset, crc, synced := [], 0, 0, 0, 0, false;
      before, acked, reserves, releases := map[], [], 0, 0;
    }

    // Open or create the file of a session that has just reserved the volume.
    method Open(e: Env) returns (answered: bool)
      requires leased && !isOpen && !created && offset == 0 && crc == 0 && reply.None?
      modifies this`status, this`isOpen, this`created, this`before, this`acked, this`files, this`synced, this`size,
        this`reply
      ensures answered <==> status == Ok
      ensures answered ==> isOpen && created == uploading && reply == Some(Reply(Ok, size, crc, []))
      ensures !answered ==> !isOpen && !created && files == old(files) && reply.None? && size == old(size)
      ensures !answered || !uploading ==> acked == old(acked) && before == old(before)
      ensures answered && uploading ==>
        path !in old(files) && OwnFile(files, before, path) && before == old(files) && acked == [] && files[path] == []
          && size == old(size)
      ensures answered && !uploading ==> files == old(files)
      ensures answered && !uploading && !listing ==> Downloading(files, path, size, offset, crc)
    {
      hide OwnFile, Downloading;
      // A file to create must not exist, a file to open must.
      status := if e.result == Ok && uploading && path in files then Exists
                else if e.result == Ok && !uploading && !listing && path !in files then NotFound else e.result;
      if status != Ok {
        return false;
      }
      isOpen := true;
      created := uploading;
      if uploading {
        OwnFileCreated(files, path);
        before, acked := files, [];
        files := files[path := []];
        synced := false;
      } else {
        size := if path in files then |files[path]| else 0;
        if path in files { DownloadStarts(files, path); }
      }
      reply := Some(Reply(status, size, crc, []));
      return true;
    }

    // What a request that begins a session says about it.
    method Describe(r: Request)
      modifies this`path, this`uploading, this`listing, this`offset, this`crc, this`size, this`expected
      ensures path == r.payload && uploading == (r.op == Upload) && listing == (r.op == List)
      ensures offset == 0 && crc == 0 && size == r.arg0 && expected == r.arg1
    {
      path := r.payload;
      uploading := r.op == Upload;
      listing := r.op == List;
      offset, crc, size, expected := 0, 0, r.arg0, r.arg1;
    }

    // Remove a file or make or remove a directory; the session ends at once.
    method Mutate(op: Op, e: Env)
      requires op in {Remove, MakeDirectory, RemoveDirectory}
      modifies this`status, this`files
      ensures status == e.result && files == if status == Ok && op == Remove then old(files) - {path} else old(files)
    {
      status := e.result;
      if status == Ok && op == Remove {
        files := files - {path};
      }
    }

    // The requests that begin a session. The volume is reserved first; whatever
    // fails after that is left to the cleanup.
    method Begin(r: Request, e: Env) returns (answered: bool)
      requires Begins(r.op) && WellAsked(r) && reply.None? && !leased && !isOpen && !created
      modifies this`path, this`uploading, this`listing, this`offset, this`crc, this`size, this`expected, this`status,
        this`leased,
        this`reserves, this`files, this`isOpen, this`created, this`before, this`acked, this`synced, this`reply
      ensures path == r.payload && uploading == (r.op == Upload) && listing == (r.op == List)
        && leased == (e.lease == Ok)
      ensures reserves == old(reserves) + (if leased then 1 else 0) && isOpen == answered
        && created == (answered && uploading)
      ensures answered ==> leased && status == Ok && reply.Some? && reply.value.status == Ok
      ensures answered && uploading ==>
        && OwnFile(files, before, path) && before == old(files) && acked == [] && files[path] == []
        && Tallied(acked, offset, size, crc)
      ensures answered && !uploading && !listing ==> Downloading(files, path, size, offset, crc)
      ensures !answered ==>
        reply.None? && (files == old(files) || (r.op == Remove && files == old(files) - {r.payload}))
      ensures acked == Acknowledged(old(acked), r, answered) && (!answered || r.op != Upload ==> before == old(before))
    {
      hide Sum, OwnFile, PathGood, Downloading;
      Describe(r);
      status := e.lease;
      answered := false;
      if status == Ok {
        leased := true;
        reserves := reserves + 1;
        if r.op in {Upload, Download, List} {
          EmptySum();
          answered := Open(e);
        } else {
          Mutate(r.op, e);
        }
      }
    }

    // A chunk of the upload, at the offset reached and within the declared size.
    method WriteChunk(payload: seq<byte>, e: Env) returns (answered: bool)
      requires state == Executing && status == Ok && OwnFile(files, before, path) && files[path] == acked
      requires Tallied(acked, offset, size, crc) && |payload| <= size - offset
      modifies this`files, this`status, this`crc, this`offset, this`reply, this`acked, this`synced
      ensures answered <==> e.result == Ok && e.count == |payload|
      ensures answered ==>
        && status == Ok && OwnFile(files, before, path) && files[path] == acked && Tallied(acked, offset, size, crc)
        && acked == old(acked) + payload && reply == Some(Reply(Ok, |acked|, Sum(acked), []))
      ensures !answered ==>
        && status != Ok && reply == old(reply) && OwnFile(files, before, path) && acked == old(acked)
        && offset == old(offset) && crc == old(crc)
    {
      hide OwnFile, Sum, Standard32;
      OwnFileHas(files, before, path);
      var n := if e.count <= |payload| then e.count else |payload|;
      OwnFileWritten(files, before, path, files[path] + payload[..n]);
      files := files[path := files[path] + payload[..n]];
      synced := false;
      status := e.result;
      if status == Ok && e.count != |payload| {
        status := IoError;
      }
      if status != Ok {
        return false;
      }
      assert payload[..n] == payload;
      SumGrows(acked, payload);
      crc := Standard32(crc, payload);
      offset := offset + e.count;
      acked := acked + payload;
      reply := Some(Reply(status, offset, crc, []));
      return true;
    }

    // A chunk of a download, or the end of it.
    method ReadChunk(e: Env) returns (answered: bool)
      requires Downloading(files, path, size, offset, crc) && reply.None? && status == Ok
      modifies this`status, this`crc, this`offset, this`reply
      ensures Downloading(files, path, size, offset, crc)
      ensures answered ==>
        && status == Ok && old(offset) < offset
        && reply == Some(Reply(Ok, offset, crc, files[path][old(offset)..offset]))
      ensures !answered ==> reply.None? && offset == old(offset) && (status == Ok ==> offset == size)
    {
      hide Sum, Standard32;
      var wanted := if size - offset <= CHUNK then size - offset else CHUNK;
      if wanted == 0 {
        return false;
      }
      status := e.result;
      if status == Ok && e.count != wanted {
        status := IoError;
      }
      if status != Ok {
        return false;
      }
      var bytes := files[path][offset..offset + wanted];
      ChunkSum(files[path], offset, wanted);
      crc := Standard32(crc, bytes);
      offset := offset + wanted;
      reply := Some(Reply(Ok, offset, crc, bytes));
      return true;
    }

    // What holds of an open session after a request, answered or not.
    ghost predicate Worked(answered: bool)
      reads this
    {
      && reserves == releases + (if leased then 1 else 0)
      && (isOpen ==> leased) && (created ==> isOpen && uploading && !listing) && (isOpen && uploading ==> created)
      && (answered ==> status == Ok && isOpen && reply.Some? && reply.value.status == Ok)
      && (!answered ==> reply.None?)
      && (created ==> OwnFile(files, before, path) && Tallied(acked, offset, size, crc))
      && (created && status == Ok ==> files[path] == acked)
      && (answered && !uploading && !listing ==> Downloading(files, path, size, offset, crc))
      && (!answered && status == Ok && created ==> synced && |acked| == size && Sum(acked) == expected)
    }

    // The requests of an open session.
    method Continue(r: Request, e: Env) returns (answered: bool)
      requires Valid() && state == Executing && status == Ok && leased && !Begins(r.op)
      modifies this`status, this`files, this`synced, this`crc, this`offset, this`reply, this`acked
      ensures Worked(answered)
      ensures created && !answered && status == Ok ==> r.op == Finish
      ensures acked == Acknowledged(old(acked), r, answered)
    {
      hide Sum, OwnFile, Standard32;
      if r.payload != [] && r.op != Write {
        status := Invalid;
        return false;
      }
      if r.op == Write && uploading && r.payload != [] && r.arg0 == offset && r.arg1 == 0
        && |r.payload| <= size - offset {
        answered := WriteChunk(r.payload, e);
        return;
      }
      if r.arg0 != 0 || r.arg1 != 0 || r.payload != [] {
        status := Invalid;
        return false;
      }
      if r.op == Finish && uploading && offset == size {
        if crc != expected {
          status := ChecksumError;
          return false;
        }
        status := e.result;
        synced := status == Ok;
        return false;
      }
      if r.op == NextEntry && listing {
        status := e.result;
        if status != Ok || !e.more {
          return false;
        }
        reply := Some(Reply(Ok, offset, crc, []));
        return true;
      }
      if r.op == Read && !uploading && !listing {
        answered := ReadChunk(e);
        return;
      }
      status := Invalid;
      return false;
    }

    /** Execute one request. Without an answer the session is to be cleaned up; that
        is ok for an upload only if the file is complete and synchronized. */
    method Execute(e: Env) returns (answered: bool)
      requires Valid() && state == Executing
      modifies this
      ensures Worked(answered) && unchanged(this`state, this`request, this`disconnected, this`failures, this`releases)
      ensures old(created) ==> created && path == old(path) && before == old(before)
      ensures acked == Acknowledged(old(acked), request.value, answered)
      ensures created && !old(created) ==>
        answered && request.value.op == Upload && before == old(files) && path == request.value.payload
    {
      hide Sum, OwnFile, Standard32, PathGood, Downloading;
      var r := request.value;
      status := Ok;
      if if Begins(r.op) then leased || !WellAsked(r) else !leased {
        status := Invalid;
        return false;
      }
      if Begins(r.op) {
        answered := Begin(r, e);
      } else {
        answered := Continue(r, e);
      }
    }

    // Close, and remove an upload that failed; says whether any of it failed.
    method Close(e: Env) returns (failed: bool)
      requires created ==> isOpen && OwnFile(files, before, path)
      modifies this`isOpen, this`created, this`files
      ensures !isOpen && !created
      ensures var removing := old(created) && (status != Ok || disconnected || e.close != Ok);
              && (failed <==> (old(isOpen) && e.close != Ok) || (removing && e.remove != Ok))
              && files == (if removing && e.remove == Ok then before else old(files))
              && (files == old(files) || files == old(files) - {path})
    {
      hide OwnFile;
      failed := false;
      if isOpen {
        isOpen := false;
        failed := e.close != Ok;
      }
      if created && (status != Ok || disconnected || failed) {
        if e.remove == Ok {
          OwnFileRemoved(files, before, path);
          files := files - {path};
        } else {
          failed := true;
        }
      }
      created := false;
    }

    // Release the volume and answer, unless the client is gone.
    method Conclude(failed: bool)
      modifies this`releases, this`leased, this`status, this`failures, this`state, this`reply, this`request,
        this`disconnected
      ensures state == Receiving && !leased && !disconnected
      ensures releases == old(releases) + (if old(leased) then 1 else 0)
      ensures status == (if failed then CleanupFailed else old(status))
        && failures == old(failures) + (if status != Ok then 1 else 0)
      ensures old(disconnected) ==> reply.None? && request.None?
      ensures !old(disconnected) ==> reply == Some(Reply(status, offset, crc, [])) && request == old(request)
    {
      if leased {
        releases := releases + 1;
        leased := false;
      }
      if failed {
        status := CleanupFailed;
      }
      if status != Ok {
        failures := failures + 1;
      }
      state := Receiving;
      if disconnected {
        reply, request := None, None;
        disconnected := false;
      } else {
        reply := Some(Reply(status, offset, crc, []));
      }
    }

    /** End the session: close, remove an upload that is not complete, release. An
        ok answer to an upload means that the file is closed and synchronized and
        holds exactly the acknowledged bytes, of the declared size and checksum.
        Nothing is removed but a file that this session created, and then the volume
        is as it was before. */
    method Cleanup(e: Env)
      requires Valid() && state == Cleaning
      modifies this
      ensures Valid() && state == Receiving && !leased && !isOpen && !created && !disconnected
      ensures releases == old(releases) + (if old(leased) then 1 else 0) && reserves == old(reserves)
      ensures path == old(path) && before == old(before) && acked == old(acked) && size == old(size)
        && expected == old(expected)
      ensures old(disconnected) ==> reply.None? && request.None?
      ensures !old(disconnected) ==> reply.Some? && reply.value.status == status
      ensures files == old(files) || (old(created) && files == old(files) - {path} && files == before)
      ensures old(created) && !old(disconnected) && status == Ok ==>
        && files == old(files) && path in files && files[path] == acked && synced && |acked| == size
        && Sum(acked) == expected
        && e.close == Ok
      ensures old(created) && (status != Ok || old(disconnected)) && e.remove == Ok ==> files == before
    {
      hide Sum, OwnFile, Standard32, Downloading, Tallied;
      if created { OwnFileHas(files, before, path); }
      var failed := Close(e);
      Conclude(failed);
    }

    method Receive(r: Request)
      requires Valid() && state == Receiving && request.None? && reply.None? && !disconnected
      modifies this`request
      ensures Valid() && request == Some(r)
    {
      request := Some(r);
    }

    method Sent()
      requires Valid() && state == Receiving
      modifies this`reply, this`request
      ensures Valid() && reply.None? && request.None?
    {
      reply, request := None, None;
    }

    method Disconnect()
      requires Valid()
      modifies this`disconnected
      ensures Valid() && disconnected
    {
      disconnected := true;
    }

    // One step of the machine; expired and malformed are what the receiver noticed,
    // ready whether the volume is accessible.
    method Tick(expired: bool, malformed: bool, ready: bool, e: Env)
      requires Valid()
      modifies this
      ensures Valid()
      ensures reserves - old(reserves) <= 1 && releases - old(releases) <= 1
      ensures old(state) == Receiving ==>
        unchanged(this`files, this`leased, this`created, this`isOpen, this`reserves, this`releases)
      ensures old(created) && !created ==> old(state) == Cleaning
      ensures old(state) == Executing ==> acked == Acknowledged(old(acked), old(request).value, state == Receiving)
      ensures old(state) != Executing ==> acked == old(acked)
      ensures created && !old(created) ==>
        old(state) == Executing && state == Receiving && old(request).value.op == Upload && before == old(files)
      ensures old(state) == Cleaning ==>
        && state == Receiving && !leased && !isOpen && !created && (old(disconnected) ==> reply.None?)
        && (!old(disconnected) ==> reply.Some? && reply.value.status == status)
        && path == old(path) && size == old(size) && expected == old(expected)
        && (files == old(files) || (old(created) && files == old(before)))
        && (old(created) && !old(disconnected) && status == Ok ==>
            Stored(files, path, acked, size, expected) && synced && e.close == Ok)
        && (old(created) && (status != Ok || old(disconnected)) && e.remove == Ok ==> files == old(before))
    {
      match state {
        case Receiving =>
          if disconnected || expired || malformed {
            status := if expired then Timeout else Invalid;
            reply := None;
            state := Cleaning;
          } else if reply.None? && request.Some? {
            state := Executing;
          }
        case Executing =>
          if disconnected || !ready {
            status := NotReady;
            state := Cleaning;
          } else {
            var answered := Execute(e);
            state := if answered then Receiving else Cleaning;
          }
        case Cleaning =>
          Cleanup(e);
      }
    }
  }

  lemma ChunkSum(file: seq<byte>, offset: nat, n: nat)
    requires offset + n <= |file|
    ensures Standard32(Sum(file[..offset]), file[offset..offset + n]) == Sum(file[..offset + n])
  {
    hide Standard32;
    SumGrows(file[..offset], file[offset..offset + n]);
    assert file[..offset] + file[offset..offset + n] == file[..offset + n];
  }

  lemma EmptySum()
    ensures Sum([]) == 0
  {
    assert Crc32.Bits([]) == [];
    Crc32.NotNot(0);
  }
}
