/** `move_files`: copying the script's files between the bucket and the
    Lambda's scratch directory. Each S3 call is recorded as a `Transfer`;
    the calls themselves are outside the model. */
module Storage {
  import opened Text

  const DataPrefix := "data/"
  const ImagesPrefix := "site/images/"
  const ScratchDir := "/tmp/"
  const GraphSuffix := "_graph.png"

  /** One S3 call: `download_file(bucket, key, local)` or
      `upload_file(local, bucket, key)`. */
  datatype Transfer =
    | Download(bucket: string, key: string, local: string)
    | Upload(local: string, bucket: string, key: string)

  predicate IsGraphFile(f: string)
  {
    EndsWith(f, GraphSuffix)
  }

  /** The local copy of a file: `'/tmp/' + file`. */
  function LocalPath(f: string): string
  {
    ScratchDir + f
  }

  /** The prefix an upload is routed under. */
  function UploadPrefix(f: string): string
  {
    if IsGraphFile(f) then ImagesPrefix else DataPrefix
  }

  /** `move_files`'s upload key. A key lands under the images prefix
      exactly when the file is a graph, and under the data prefix exactly
      when it is not; either way it ends with the file name. */
  function UploadKey(f: string): (k: string)
    ensures StartsWith(k, ImagesPrefix) <==> IsGraphFile(f)
    ensures StartsWith(k, DataPrefix) <==> !IsGraphFile(f)
    ensures EndsWith(k, f)
  {
    var p := UploadPrefix(f);
    var k := p + f;
    assert k[..|p|] == p && k[|k| - |f|..] == f;
    assert k[0] == p[0];
    assert IsGraphFile(f) ==> p[0] == 's' != DataPrefix[0];
    assert !IsGraphFile(f) ==> p[0] == 'd' != ImagesPrefix[0];
    k
  }

  /** `move_files`'s download key: the data prefix, then the file name. */
  function DownloadKey(f: string): (k: string)
    ensures StartsWith(k, DataPrefix) && k[|DataPrefix|..] == f
  {
    DataPrefix + f
  }

  /** The S3 call `move_files` issues for one file. */
  function TransferOf(bucket: string, direction: string, f: string): (t: Transfer)
    requires direction == "download" || direction == "upload"
    ensures t.Download? <==> direction == "download"
    ensures t.bucket == bucket && t.local == LocalPath(f)
    ensures EndsWith(t.key, f)
  {
    if direction == "download" then Download(bucket, DownloadKey(f), LocalPath(f))
    else Upload(LocalPath(f), bucket, UploadKey(f))
  }

  /** The S3 calls `move_files(direction, files)` issues, in order: one per
      file for "download" or "upload", none for any other direction. */
  function Transfers(bucket: string, direction: string, files: seq<string>): (ts: seq<Transfer>)
    ensures |ts| == if direction == "download" || direction == "upload" then |files| else 0
  {
    if direction == "download" || direction == "upload" then
      seq(|files|, i requires 0 <= i < |files| => TransferOf(bucket, direction, files[i]))
    else []
  }

  /** `move_files`: walks the file list and issues one call per file. */
  method MoveFiles(bucket: string, direction: string, files: seq<string>) returns (calls: seq<Transfer>)
    ensures calls == Transfers(bucket, direction, files)
  {
    calls := [];
    for i := 0 to |files|
      invariant direction == "download" || direction == "upload" ==>
        calls == seq(i, k requires 0 <= k < i => TransferOf(bucket, direction, files[k]))
      invariant direction != "download" && direction != "upload" ==> calls == []
    {
      var f := files[i];
      ghost var prev := calls;
      if direction == "download" {
        calls := calls + [Download(bucket, DataPrefix + f, ScratchDir + f)];
      } else if direction == "upload" {
        if EndsWith(f, GraphSuffix) {
          calls := calls + [Upload(ScratchDir + f, bucket, ImagesPrefix + f)];
        } else {
          calls := calls + [Upload(ScratchDir + f, bucket, DataPrefix + f)];
        }
      }
      assert direction == "download" || direction == "upload" ==>
        calls == prev + [TransferOf(bucket, direction, f)];
    }
  }

  /** Routing depends on nothing but the file name's last ten characters. */
  lemma SameSuffixSamePrefix(f: string, g: string)
    requires |f| >= |GraphSuffix| && |g| >= |GraphSuffix|
    requires f[|f| - |GraphSuffix|..] == g[|g| - |GraphSuffix|..]
    ensures UploadPrefix(f) == UploadPrefix(g)
  {
  }

  /** Different files never overwrite each other's uploaded key. */
  lemma UploadKeyInjective(f: string, g: string)
    requires UploadKey(f) == UploadKey(g)
    ensures f == g
  {
    var p := UploadPrefix(f);
    assert UploadPrefix(g) == p;
    assert f == UploadKey(f)[|p|..] == UploadKey(g)[|p|..] == g;
  }

  /** Uploading a file writes back the key it was downloaded from exactly
      when it is not a graph: the data files make a round trip. */
  lemma UploadRestoresDownloadKey(f: string)
    ensures UploadKey(f) == DownloadKey(f) <==> !IsGraphFile(f)
  {
    if IsGraphFile(f) {
      assert UploadKey(f)[0] != DownloadKey(f)[0];
    }
  }

  /** Both directions copy between the same two places for a data file:
      the download reads the key and local path the upload writes back. */
  lemma DataFileRoundTrip(bucket: string, f: string)
    requires !IsGraphFile(f)
    ensures TransferOf(bucket, "download", f).key == TransferOf(bucket, "upload", f).key
    ensures TransferOf(bucket, "download", f).local == TransferOf(bucket, "upload", f).local
  {
  }
}
