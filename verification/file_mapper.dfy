/**
 * Documents as the mappers see them: the file mapper that turns a stored
 * file into its edit-form fields and back (`FileMapper.to_form`,
 * `file_from_form`), and the file construction the employee, jockey and
 * horse mappers share (`create_file`, `create_files`), which build a file
 * row in the same way.
 */
module FileMapper {
  import opened Wrappers
  import opened PyValues

  /** What `to_form` splits a link's path on. */
  const Separator := "://"

  /** The form fields of a link. */
  const UrlFields := {"url_protocol", "url_host"}

  /**
   * `to_form(file)`: the title and tag, `upload_type` "url" for a link and
   * "file" otherwise, and for a link its path split on "://" into protocol
   * and host. Unpacking the split into two names raises (`ValueError`)
   * unless it yields exactly two pieces. Indexing a missing key raises, so
   * the three keys must be present, and a link's path must be a string.
   */
  function ToForm(file: Dict): (r: Result<Dict>)
    requires "title" in file && "is_link" in file && "tag" in file
    requires Truthy(file["is_link"]) ==> "path" in file && file["path"].Str?
    ensures r.Ok? <==> !Truthy(file["is_link"]) || |Split(file["path"].s, Separator)| == 2
    ensures r.Ok? ==> (r.value.Keys == {"title", "upload_type", "tag"} + (if Truthy(file["is_link"]) then UrlFields else {}))
    ensures r.Ok? ==> && r.value["title"] == file["title"] && r.value["tag"] == file["tag"]
                      && r.value["upload_type"] == Str(if Truthy(file["is_link"]) then "url" else "file")
    ensures r.Ok? && Truthy(file["is_link"]) ==>
      r.value["url_protocol"] == Str(Split(file["path"].s, Separator)[0])
      && r.value["url_host"] == Str(Split(file["path"].s, Separator)[1])
  {
    var base := map["title" := file["title"],
                    "upload_type" := Str(if Truthy(file["is_link"]) then "url" else "file"),
                    "tag" := file["tag"]];
    if !Truthy(file["is_link"]) then Ok(base)
    else
      var parts := Split(file["path"].s, Separator);
      if |parts| != 2 then Raised("ValueError")
      else Ok(base["url_protocol" := Str(parts[0])]["url_host" := Str(parts[1])])
  }

  /** Whether the form asks for a link: `data.get("upload_type") == "url"`. */
  predicate UrlUpload(data: Dict) {
    Get(data, "upload_type") == Str("url")
  }

  /**
   * `file_from_form(data)`: the title and tag, `is_link` exactly when the
   * upload type is "url", and for a link a path made by concatenating
   * protocol and host with nothing between them. Concatenating `None`
   * raises, so a link needs both parts as strings.
   */
  function FileFromForm(data: Dict): (r: Dict)
    requires UrlUpload(data) ==> Get(data, "url_protocol").Str? && Get(data, "url_host").Str?
    ensures r.Keys == {"title", "is_link", "tag"} + (if UrlUpload(data) then {"path"} else {})
    ensures r["is_link"] == Bool(UrlUpload(data))
    ensures r["title"] == Get(data, "title") && r["tag"] == Get(data, "tag")
    ensures UrlUpload(data) ==> r["path"] == Str(Get(data, "url_protocol").s + Get(data, "url_host").s)
  {
    var temp := map["title" := Get(data, "title"), "is_link" := Bool(UrlUpload(data)), "tag" := Get(data, "tag")];
    if UrlUpload(data) then temp["path" := Str(Get(data, "url_protocol").s + Get(data, "url_host").s)]
    else temp
  }

  /** A string without the separator splits into itself alone. */
  lemma {:induction false} SplitWithout(s: string, sep: string)
    requires sep != [] && !ContainsSub(s, sep)
    ensures Split(s, sep) == [s]
    decreases |s|
  {
    if |s| >= |sep| {
      assert !OccursAt(s, sep, 0);
      assert s[..|sep|] != sep;
      forall i | 0 <= i <= |s[1..]| ensures !OccursAt(s[1..], sep, i) {
        assert !OccursAt(s, sep, i + 1);
        if i <= |s[1..]| - |sep| {
          assert s[1..][i..i + |sep|] == s[i + 1..i + 1 + |sep|];
        }
      }
      SplitWithout(s[1..], sep);
      assert [s[0]] + s[1..] == s;
    }
  }

  /**
   * A prefix that cannot start the separator (its first character does not
   * occur in it) is split off as the first piece.
   */
  lemma {:induction false} SplitFirst(a: string, sep: string, rest: string)
    requires sep != [] && sep[0] !in a
    ensures Split(a + sep + rest, sep) == [a] + Split(rest, sep)
    decreases |a|
  {
    var s := a + sep + rest;
    if a == [] {
      assert s == sep + rest;
      assert s[..|sep|] == sep;
      assert s[|sep|..] == rest;
    } else {
      assert s[..|sep|][0] == a[0];
      assert s[..|sep|] != sep;
      assert s[1..] == a[1..] + sep + rest;
      SplitFirst(a[1..], sep, rest);
      assert [a[0]] + a[1..] == a;
    }
  }

  /** A link whose path has no "://" cannot be put on the form. */
  lemma LinkWithoutSeparatorRaises(file: Dict)
    requires "title" in file && "tag" in file && "is_link" in file && Truthy(file["is_link"])
    requires "path" in file && file["path"].Str? && !ContainsSub(file["path"].s, Separator)
    ensures ToForm(file).Raised?
  {
    SplitWithout(file["path"].s, Separator);
  }

  /** Nor can a link whose path has the separator twice. */
  lemma LinkWithTwoSeparatorsRaises(file: Dict, a: string, b: string, c: string)
    requires "title" in file && "tag" in file && "is_link" in file && Truthy(file["is_link"])
    requires ':' !in a && ':' !in b
    requires "path" in file && file["path"] == Str(a + Separator + b + Separator + c)
    ensures ToForm(file).Raised?
  {
    SplitFirst(a, Separator, b + Separator + c);
    SplitFirst(b, Separator, c);
    assert a + Separator + b + Separator + c == a + Separator + (b + Separator + c);
  }

  /**
   * Putting a link on the form and reading it back loses the separator:
   * the path "protocol://host" comes back as "protocolhost".
   */
  lemma LinkRoundTripDropsSeparator(file: Dict, protocol: string, host: string)
    requires "title" in file && "tag" in file && "is_link" in file && Truthy(file["is_link"])
    requires ':' !in protocol && !ContainsSub(host, Separator)
    requires "path" in file && file["path"] == Str(protocol + Separator + host)
    ensures ToForm(file).Ok?
    ensures var back := FileFromForm(ToForm(file).value);
      && back["is_link"] == Bool(true) && back["title"] == file["title"] && back["tag"] == file["tag"]
      && back["path"] == Str(protocol + host) && back["path"] != file["path"]
  {
    SplitFirst(protocol, Separator, host);
    SplitWithout(host, Separator);
    assert |protocol + host| != |protocol + Separator + host|;
  }

  /** A stored (non-link) file reads back with its title and tag and no path. */
  lemma FileRoundTrip(file: Dict)
    requires "title" in file && "tag" in file && "is_link" in file && !Truthy(file["is_link"])
    ensures ToForm(file).Ok?
    ensures FileFromForm(ToForm(file).value)
         == map["title" := file["title"], "is_link" := Bool(false), "tag" := file["tag"]]
  {
  }

  /** The fields `create_file` copies from the file information. */
  const FileFields := {"path", "title", "is_link", "filetype", "filesize"}

  /** `create_file(document_type, file_information)`: the five fields copied, tagged with the document type. */
  function CreateFile(docType: Value, info: Dict): (f: Dict)
    ensures f.Keys == FileFields + {"tag"}
    ensures f["tag"] == docType
    ensures forall k :: k in FileFields ==> f[k] == Get(info, k)
  {
    Project(info, FileFields)["tag" := docType]
  }

  /** The pairs `(document_type, files_info)` that `create_files` receives. */
  type Files = seq<(Value, seq<Value>)>

  /** Every truthy file information is a dictionary (`file_info.get` is called on it). */
  predicate InfosReadable(infos: seq<Value>) {
    forall j :: 0 <= j < |infos| && Truthy(infos[j]) ==> infos[j].Dict?
  }

  predicate Readable(files: Files) {
    forall i :: 0 <= i < |files| ==> InfosReadable(files[i].1)
  }

  /** How many of the values are truthy. */
  function TruthyCount(vs: seq<Value>): (n: nat)
    ensures n <= |vs|
  {
    if vs == [] then 0 else (if Truthy(vs[0]) then 1 else 0) + TruthyCount(vs[1..])
  }

  /** The truthy entries, in order: the file informations `create_files` reads. */
  function TruthyInfos(infos: seq<Value>): (r: seq<Dict>)
    requires InfosReadable(infos)
    ensures |r| == TruthyCount(infos)
  {
    if infos == [] then []
    else (if Truthy(infos[0]) then [infos[0].entries] else []) + TruthyInfos(infos[1..])
  }

  /** The files of one document type: one per truthy entry, in order, all tagged with the type. */
  function CreateGroup(docType: Value, infos: seq<Value>): (r: seq<Dict>)
    requires InfosReadable(infos)
    ensures |r| == TruthyCount(infos)
    ensures forall k :: 0 <= k < |r| ==> "tag" in r[k] && r[k]["tag"] == docType
  {
    Tagged(docType, TruthyInfos(infos))
  }

  /** `create_file` applied to each information in turn. */
  function Tagged(docType: Value, shown: seq<Dict>): (r: seq<Dict>)
    ensures |r| == |shown|
    ensures forall k :: 0 <= k < |r| ==> "tag" in r[k] && r[k]["tag"] == docType
  {
    seq(|shown|, k requires 0 <= k < |shown| => CreateFile(docType, shown[k]))
  }

  lemma TaggedAppend(docType: Value, x: seq<Dict>, y: seq<Dict>)
    ensures Tagged(docType, x + y) == Tagged(docType, x) + Tagged(docType, y)
  {
    forall k | 0 <= k < |x| + |y| ensures Tagged(docType, x + y)[k] == (Tagged(docType, x) + Tagged(docType, y))[k] {
      if k < |x| {
        assert (x + y)[k] == x[k];
      } else {
        assert (x + y)[k] == y[k - |x|];
      }
    }
  }

  /** The number of truthy entries over all groups. */
  function TotalCount(files: Files): nat {
    if files == [] then 0 else TruthyCount(files[0].1) + TotalCount(files[1..])
  }

  /** `create_files(files)`: the groups' files, group after group. */
  function CreateFiles(files: Files): (r: seq<Dict>)
    requires Readable(files)
    ensures |r| == TotalCount(files)
    ensures forall k :: 0 <= k < |r| ==> "tag" in r[k]
  {
    if files == [] then [] else CreateGroup(files[0].0, files[0].1) + CreateFiles(files[1..])
  }

  /** Entries are taken in order: the files of a concatenation are the concatenated files. */
  lemma {:induction false} TruthyInfosAppend(a: seq<Value>, b: seq<Value>)
    requires InfosReadable(a) && InfosReadable(b) && InfosReadable(a + b)
    ensures TruthyInfos(a + b) == TruthyInfos(a) + TruthyInfos(b)
    decreases |a|
  {
    if a != [] {
      var head := if Truthy(a[0]) then [a[0].entries] else [];
      InfosTail(a);
      InfosTail(a + b);
      assert (a + b)[0] == a[0] && (a + b)[1..] == a[1..] + b;
      InfosAppend(a[1..], b);
      TruthyInfosAppend(a[1..], b);
      assert TruthyInfos(a + b) == head + TruthyInfos(a[1..] + b);
    } else {
      assert a + b == b;
    }
  }

  /** Entries are taken in order: the files of a concatenation are the concatenated files. */
  lemma CreateGroupAppend(docType: Value, a: seq<Value>, b: seq<Value>)
    requires InfosReadable(a) && InfosReadable(b)
    ensures InfosReadable(a + b)
    ensures CreateGroup(docType, a + b) == CreateGroup(docType, a) + CreateGroup(docType, b)
  {
    InfosAppend(a, b);
    TruthyInfosAppend(a, b);
    TaggedAppend(docType, TruthyInfos(a), TruthyInfos(b));
  }

  lemma InfosAppend(a: seq<Value>, b: seq<Value>)
    requires InfosReadable(a) && InfosReadable(b)
    ensures InfosReadable(a + b)
  {
    forall j | 0 <= j < |a + b| && Truthy((a + b)[j]) ensures (a + b)[j].Dict? {
      if j < |a| {
        assert (a + b)[j] == a[j];
      } else {
        assert (a + b)[j] == b[j - |a|];
      }
    }
  }

  lemma InfosTail(a: seq<Value>)
    requires InfosReadable(a) && a != []
    ensures InfosReadable(a[1..])
  {
    forall j | 0 <= j < |a| - 1 && Truthy(a[1..][j]) ensures a[1..][j].Dict? {
      assert a[1..][j] == a[j + 1];
    }
  }

  /** One entry yields its file when truthy and nothing otherwise. */
  lemma CreateGroupSingle(docType: Value, info: Value)
    requires Truthy(info) ==> info.Dict?
    ensures CreateGroup(docType, [info]) == if Truthy(info) then [CreateFile(docType, info.entries)] else []
  {
    assert [info][1..] == [];
    assert TruthyInfos([info]) == if Truthy(info) then [info.entries] else [];
  }

  lemma {:induction false} CreateFilesAppend(a: Files, b: Files)
    requires Readable(a) && Readable(b)
    ensures Readable(a + b)
    ensures CreateFiles(a + b) == CreateFiles(a) + CreateFiles(b)
    decreases |a|
  {
    if a != [] {
      assert (a + b)[0] == a[0];
      assert (a + b)[1..] == a[1..] + b;
      CreateFilesAppend(a[1..], b);
    } else {
      assert a + b == b;
    }
  }

  /** Every file created carries the document type of one of the groups. */
  lemma {:induction false} CreateFilesTagged(files: Files)
    requires Readable(files)
    ensures forall k :: 0 <= k < |CreateFiles(files)| ==>
      exists i :: 0 <= i < |files| && CreateFiles(files)[k]["tag"] == files[i].0
    decreases |files|
  {
    if files != [] {
      var head := CreateGroup(files[0].0, files[0].1);
      var rest := files[1..];
      assert CreateFiles(files) == head + CreateFiles(rest);
      CreateFilesTagged(rest);
      forall k | 0 <= k < |CreateFiles(files)|
        ensures exists i :: 0 <= i < |files| && CreateFiles(files)[k]["tag"] == files[i].0
      {
        if k < |head| {
          assert CreateFiles(files)[k] == head[k];
          assert CreateFiles(files)[k]["tag"] == files[0].0;
        } else {
          assert CreateFiles(files)[k] == CreateFiles(rest)[k - |head|];
          var i :| 0 <= i < |rest| && CreateFiles(rest)[k - |head|]["tag"] == rest[i].0;
          assert rest[i] == files[i + 1];
          assert CreateFiles(files)[k]["tag"] == files[i + 1].0;
        }
      }
    } else {
      assert CreateFiles(files) == [];
    }
  }

  /** The columns `File.to_dict` passes on under their own names. */
  const CopiedKeys: set<string> := {"id", "path", "filetype", "filesize", "title", "tag", "is_link"}

  /** The keys of `File.to_dict`: those columns and the insertion time renamed. */
  const ToDictKeys: set<string> := CopiedKeys + {"uploaded_at"}

  /**
   * `File.to_dict()`: the columns id, path, filetype, filesize, title, tag and
   * is_link under their own names, and `inserted_at` as `uploaded_at`. No
   * other column (the owner's id, the deletion flag) is passed on.
   */
  function ToDict(attrs: Dict): Dict {
    Project(attrs, CopiedKeys)["uploaded_at" := Attr(attrs, "inserted_at")]
  }

  /** Exactly the eight keys, the columns under their own names and `uploaded_at` the insertion time. */
  lemma ToDictShape(attrs: Dict)
    ensures ToDict(attrs).Keys == ToDictKeys
    ensures ToDict(attrs)["uploaded_at"] == Attr(attrs, "inserted_at")
    ensures forall k :: k in CopiedKeys ==> ToDict(attrs)[k] == Attr(attrs, k)
  {
    assert "uploaded_at" !in CopiedKeys;
  }

  /** A column `to_dict` does not read never shows in the dictionary. */
  lemma ToDictIgnoresOthers(attrs: Dict, k: string, v: Value)
    requires k !in CopiedKeys && k != "inserted_at"
    ensures ToDict(attrs[k := v]) == ToDict(attrs)
  {
    ProjectOtherKey(attrs, CopiedKeys, k, v);
  }

  /**
   * `[file.to_dict() for file in files if file]`: each stored file as its
   * dictionary, `None` entries dropped, in order.
   */
  function Listed(files: seq<Value>): (r: seq<Value>)
    requires forall i :: 0 <= i < |files| ==> files[i].PyNone? || files[i].Object?
    ensures |r| <= |files|
    ensures (forall i :: 0 <= i < |files| ==> files[i].Object?) ==>
      |r| == |files| && forall i :: 0 <= i < |files| ==> r[i] == Dict(ToDict(files[i].attrs))
  {
    if files == [] then [] else Entry(files[0]) + Listed(files[1..])
  }

  /** What one entry contributes: a stored file its dictionary, `None` nothing. */
  function Entry(x: Value): seq<Value> {
    if x.Object? then [Dict(ToDict(x.attrs))] else []
  }

  /** One entry: a stored file gives its dictionary, `None` gives nothing. */
  lemma ListedSingle(x: Value)
    requires x.PyNone? || x.Object?
    ensures Listed([x]) == if x.Object? then [Dict(ToDict(x.attrs))] else []
  {
    assert [x][1..] == [];
  }

  /** The entries are taken in order: listing a concatenation lists the parts, concatenated. */
  lemma {:induction false} ListedAppend(a: seq<Value>, b: seq<Value>)
    requires forall i :: 0 <= i < |a| ==> a[i].PyNone? || a[i].Object?
    requires forall i :: 0 <= i < |b| ==> b[i].PyNone? || b[i].Object?
    ensures Listed(a + b) == Listed(a) + Listed(b)
  {
    if a == [] {
      assert a + b == b;
    } else {
      assert (a + b)[0] == a[0] && (a + b)[1..] == a[1..] + b;
      ListedAppend(a[1..], b);
    }
  }
}
