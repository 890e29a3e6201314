/** Uploaded network-log files (app/Http/Controllers/NetworkLogController.php):
    who sees which log, the upload that creates a pending record, the status
    update, and deletion of the record together with its file. The public
    storage disk is a set of paths. */
module NetworkLogs {
  import opened Common
  import opened Users

  const LogStatuses: set<string> := {"pending", "processing", "processed", "failed"}
  const AllowedExtensions: set<string> := {"csv", "txt", "pcap"}

  /** `max:10240` on a file is in kilobytes: 10240 * 1024 bytes. */
  const MaxUploadBytes: nat := 10240 * 1024

  const UploadDirectory: string := "network_logs"

  datatype NetworkLog = NetworkLog(
    id: nat,
    userId: nat,
    fileName: string,
    filePath: string,
    uploadDate: int,
    status: string,
    analysisResult: Option<string>,
    createdAt: int)

  /** The logs `index` lists for `viewer` (before ordering and pagination). */
  function VisibleLogs(logs: seq<NetworkLog>, viewer: User): (r: seq<NetworkLog>)
    ensures forall l :: l in r <==> l in logs && (viewer.role == AdminRole || l.userId == viewer.id)
    ensures viewer.role == AdminRole ==> r == logs
    ensures viewer.role != AdminRole ==> forall l :: l in r ==> l.userId == viewer.id
  {
    if viewer.role == AdminRole then logs
    else Filter(logs, (l: NetworkLog) => l.userId == viewer.id)
  }

  /** An uploaded file: the name the client gave it, the extension the
      framework infers from its content, and its size in bytes. */
  datatype Upload = Upload(originalName: string, guessedExtension: string, sizeBytes: nat)

  /** `required|file|mimes:csv,txt,pcap|max:10240` */
  predicate AcceptableUpload(f: Option<Upload>) {
    f.Some? && f.value.guessedExtension in AllowedExtensions && f.value.sizeBytes <= MaxUploadBytes
  }

  /** Where `storeAs` puts the upload: `network_logs/<time>_<original name>`. */
  function StoredPath(time: nat, originalName: string): string {
    UploadDirectory + "/" + NatToString(time) + "_" + originalName
  }

  /** PHP truthiness of a string: "" and "0" are false. */
  predicate Truthy(s: string) {
    s != "" && s != "0"
  }

  /** The disk after `destroy`'s guarded delete. */
  function FilesAfterDestroy(files: set<string>, path: string): (r: set<string>)
    ensures r <= files
    ensures Truthy(path) ==> r == files - {path}
    ensures !Truthy(path) ==> r == files
  {
    if Truthy(path) && path in files then files - {path} else files
  }

  /** Every path an upload stores is truthy, so deleting its record also
      deletes its file, and nothing else on the disk. */
  lemma UploadedFileIsDeletedWithItsRecord(files: set<string>, time: nat, name: string)
    ensures var p := StoredPath(time, name);
      FilesAfterDestroy(files + {p}, p) == files - {p}
  {
    var p := StoredPath(time, name);
    assert p[0] == 'n';
  }

  predicate UniqueLogIds(logs: seq<NetworkLog>) {
    forall i, j :: 0 <= i < j < |logs| ==> logs[i].id != logs[j].id
  }

  function IndexOfLog(logs: seq<NetworkLog>, id: nat): (k: nat)
    ensures k <= |logs|
    ensures k < |logs| ==> logs[k].id == id
    ensures k == |logs| ==> forall l :: l in logs ==> l.id != id
  {
    if logs == [] then 0
    else if logs[0].id == id then 0
    else 1 + IndexOfLog(logs[1..], id)
  }

  /** Removing the row at the index of `id` removes exactly the log with that
      id and keeps every other log. */
  lemma RemoveLogAt(logs: seq<NetworkLog>, id: nat)
    requires UniqueLogIds(logs)
    requires IndexOfLog(logs, id) < |logs|
    ensures var k := IndexOfLog(logs, id);
      var r := logs[..k] + logs[k + 1..];
      && |r| == |logs| - 1
      && UniqueLogIds(r)
      && forall l :: l in r <==> l in logs && l.id != id
  {
    var k := IndexOfLog(logs, id);
    RemoveLogKeepsUnique(logs, k);
    RemoveLogMembers(logs, k);
  }

  lemma RemoveLogKeepsUnique(logs: seq<NetworkLog>, k: nat)
    requires UniqueLogIds(logs) && k < |logs|
    ensures UniqueLogIds(logs[..k] + logs[k + 1..])
  {
    var r := logs[..k] + logs[k + 1..];
    forall i, j | 0 <= i < j < |r|
      ensures r[i].id != r[j].id
    {
      assert r[i] == logs[if i < k then i else i + 1];
      assert r[j] == logs[if j < k then j else j + 1];
    }
  }

  lemma RemoveLogMembers(logs: seq<NetworkLog>, k: nat)
    requires UniqueLogIds(logs) && k < |logs|
    ensures forall l :: l in logs[..k] + logs[k + 1..] <==> l in logs && l.id != logs[k].id
  {
    var a, b := logs[..k], logs[k + 1..];
    assert logs == a + [logs[k]] + b;
    forall l | l in logs
      ensures l.id == logs[k].id <==> l == logs[k]
    {
      var i := IndexOf(logs, l);
    }
    forall l | l in a + b
      ensures l != logs[k]
    {
      if l in a {
        var i := IndexOf(a, l);
        assert logs[i] == l;
      } else {
        var i := IndexOf(b, l);
        assert logs[k + 1 + i] == l;
      }
    }
  }

  /** The network_logs table and the public disk. */
  class LogStore {
    var logs: seq<NetworkLog>
    var files: set<string>
    var nextId: nat

    ghost predicate Valid()
      reads this
    {
      && UniqueLogIds(logs)
      && forall l :: l in logs ==> l.status in LogStatuses && l.id < nextId
    }

    constructor ()
      ensures Valid() && logs == [] && files == {}
    {
      logs, files, nextId := [], {}, 1;
    }

    /** `store`: validate the upload, put it on the disk, insert a pending
        record owned by `user`, then run the log-processing command. That
        command's failure is caught and only logged, so the record and the
        outcome are the same whether it succeeds or not, and the command is
        not modelled. `now` is the request time in seconds. */
    method Store(upload: Option<Upload>, user: nat, now: nat) returns (outcome: Outcome)
      requires Valid()
      modifies this
      ensures Valid()
      ensures !AcceptableUpload(upload) ==>
        outcome == Error && logs == old(logs) && files == old(files) && nextId == old(nextId)
      ensures AcceptableUpload(upload) ==>
        var path := StoredPath(now, upload.value.originalName);
        && outcome == Success
        && files == old(files) + {path}
        && logs == old(logs) + [NetworkLog(old(nextId), user, upload.value.originalName, path, now, "pending", None, now)]
    {
      if !AcceptableUpload(upload) {
        return Error;
      }
      var file := upload.value;
      var path := StoredPath(now, file.originalName);
      files := files + {path};
      logs := logs + [NetworkLog(nextId, user, file.originalName, path, now, "pending", None, now)];
      nextId := nextId + 1;
      return Success;
    }

    /** `update`: only `status` may change, and only to one of the four. */
    method Update(id: nat, status: Input<string>) returns (outcome: Outcome)
      requires Valid()
      modifies this
      ensures Valid() && files == old(files) && nextId == old(nextId)
      ensures var k := IndexOfLog(old(logs), id);
        && (k == |old(logs)| ==> outcome == NotFound && logs == old(logs))
        && (k < |old(logs)| && !(status.Given? && status.value in LogStatuses) ==>
              outcome == Error && logs == old(logs))
        && (k < |old(logs)| && status.Given? && status.value in LogStatuses ==>
              outcome == Success && logs == old(logs)[k := old(logs)[k].(status := status.value)])
    {
      var k := IndexOfLog(logs, id);
      if k == |logs| {
        return NotFound;
      }
      if !(status.Given? && status.value in LogStatuses) {
        return Error;
      }
      logs := logs[k := logs[k].(status := status.value)];
      return Success;
    }

    /** `destroy`: delete the file when the path is truthy and present, then
        delete the record in every case. */
    method Destroy(id: nat) returns (outcome: Outcome)
      requires Valid()
      modifies this
      ensures Valid() && nextId == old(nextId)
      ensures var k := IndexOfLog(old(logs), id);
        && (k == |old(logs)| ==> outcome == NotFound && logs == old(logs) && files == old(files))
        && (k < |old(logs)| ==>
              && outcome == Success
              && logs == old(logs)[..k] + old(logs)[k + 1..]
              && files == FilesAfterDestroy(old(files), old(logs)[k].filePath))
    {
      var k := IndexOfLog(logs, id);
      if k == |logs| {
        return NotFound;
      }
      var path := logs[k].filePath;
      if Truthy(path) && path in files {
        files := files - {path};
      }
      RemoveLogAt(logs, id);
      logs := logs[..k] + logs[k + 1..];
      return Success;
    }
  }
}
