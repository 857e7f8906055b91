/**
 * The deterministic part of the object-storage service: how object names are
 * built, which files of an upload batch are sent, and which stored documents
 * have an object behind them. The object store itself is not modelled.
 */
module StorageServices {
  import opened PyValues

  /** `__construct_path(path, filename)`: exactly one `/` between a directory and a name. */
  function ConstructPath(path: string, filename: string): (r: string)
    ensures path <= r && EndsWith(r, filename)
    ensures EndsWith(r[..|r| - |filename|], "/")
    ensures |r| == |path| + |filename| + (if EndsWith(path, "/") then 0 else 1)
  {
    if EndsWith(path, "/") then path + filename else path + "/" + filename
  }

  /** The name always sits right after a `/`, and what precedes it is the directory with at most one `/` added. */
  lemma ConstructPathSeparator(path: string, filename: string)
    ensures var r := ConstructPath(path, filename);
      |r| == |filename| + |path| + (if EndsWith(path, "/") then 0 else 1)
      && r[..|r| - |filename|] == (if EndsWith(path, "/") then path else path + "/")
      && r[|r| - |filename| - 1] == '/'
  {
    var r := ConstructPath(path, filename);
    if EndsWith(path, "/") {
      assert r[..|r| - |filename|] == path;
      assert r[|r| - |filename| - 1] == path[|path| - 1];
    } else {
      assert r[..|r| - |filename|] == path + "/";
    }
  }

  /** An empty directory gives a name rooted at `/`. */
  lemma ConstructPathEmptyDirectory(filename: string)
    ensures ConstructPath("", filename) == "/" + filename
  {
    assert !EndsWith("", "/");
  }

  /**
   * One element of the `files` argument of `upload_batch`: `None`, or an
   * uploaded file by its filename. A file object is falsy exactly when its
   * filename is empty.
   */
  datatype Upload = NoFile | FileStorage(filename: string)

  /** The `files` argument: a list, or anything else. */
  datatype Batch = NotAList | Files(items: seq<Upload>)

  /** What `upload_batch` returns: `{}` for a non-list, else one upload result per file sent. */
  datatype BatchResult = EmptyDict | Uploaded(sent: seq<string>)

  /** The files `upload_batch` sends: truthy and with a non-blank name. */
  predicate Sendable(u: Upload) {
    u.FileStorage? && u.filename != "" && Strip(u.filename) != ""
  }

  /**
   * `upload_batch(files, path)`. The upload of each file is not modelled: the
   * result lists, in order, the filenames `upload_file` is called with.
   */
  function UploadBatch(files: Batch): (r: BatchResult)
    ensures files.NotAList? <==> r.EmptyDict?
    ensures files.Files? ==> |r.sent| <= |files.items|
    ensures files.Files? ==> forall n :: n in r.sent ==> exists u :: u in files.items && Sendable(u) && u.filename == n
  {
    match files
    case NotAList => EmptyDict
    case Files(items) => Uploaded(SentNames(items))
  }

  function SentNames(items: seq<Upload>): (r: seq<string>)
    ensures |r| <= |items|
    ensures forall n :: n in r ==> exists u :: u in items && Sendable(u) && u.filename == n
  {
    if items == [] then []
    else
      var rest := SentNames(items[1..]);
      assert forall u :: u in items[1..] ==> u in items;
      if Sendable(items[0]) then [items[0].filename] + rest else rest
  }

  /** Sending commutes with concatenation: the batch keeps the caller's order. */
  lemma {:induction false} SentNamesAppend(a: seq<Upload>, b: seq<Upload>)
    ensures SentNames(a + b) == SentNames(a) + SentNames(b)
  {
    if a == [] {
      assert a + b == b;
    } else {
      assert (a + b)[1..] == a[1..] + b;
      SentNamesAppend(a[1..], b);
    }
  }

  /** A batch with no sendable file uploads nothing; a batch of sendable files uploads each of them. */
  lemma {:induction false} SentNamesAll(items: seq<Upload>)
    ensures (forall i :: 0 <= i < |items| ==> !Sendable(items[i])) ==> SentNames(items) == []
    ensures (forall i :: 0 <= i < |items| ==> Sendable(items[i])) ==>
      |SentNames(items)| == |items| && forall i :: 0 <= i < |items| ==> SentNames(items)[i] == items[i].filename
  {
    if items != [] {
      SentNamesAll(items[1..]);
    }
  }

  /** A stored document: its object name and whether it is an external link. */
  datatype Document = Document(owner: int, path: string, isLink: bool)

  /** A document of `owner` with an object behind it: links have none. */
  predicate HasObject(d: Document, owner: int) {
    d.owner == owner && !d.isLink
  }

  /** The objects behind an owner's documents, in query order. */
  function StoredPaths(docs: seq<Document>, owner: int): (r: seq<string>)
    ensures |r| <= |docs|
    ensures forall p :: p in r <==> exists d :: d in docs && HasObject(d, owner) && d.path == p
  {
    if docs == [] then []
    else
      var rest := StoredPaths(docs[1..], owner);
      assert forall d :: d in docs <==> d == docs[0] || d in docs[1..];
      if HasObject(docs[0], owner) then [docs[0].path] + rest else rest
  }
}
