/**
 * The horse mapper: a horse built from form data with its uploaded files,
 * a stored horse serialised (its files only when asked for), and the
 * simple form's projection.
 */
module HorseMapper {
  import opened PyValues
  import FileMapper

  /** The constructor arguments `to_entity` reads. */
  const Keys := {"name", "birth_date", "sex", "breed", "coat", "is_donation", "admission_date",
                 "assigned_facility", "ja_type"}
  /** The columns `from_entity` writes as stored, beside the type. */
  const StoredKeys := (Keys - {"ja_type"}) + {"id", "inserted_at", "updated_at", "is_deleted"}

  lemma KeysApart()
    ensures "is_deleted" !in Keys && "files" !in Keys && "id" !in Keys
    ensures "ja_type" !in StoredKeys && "files" !in StoredKeys
  {
  }

  /** A new horse: its columns and the files to attach to it. */
  datatype Horse = Horse(columns: Dict, files: seq<Dict>)

  /**
   * `to_entity`: the nine columns read with `.get`; the files of every
   * truthy entry of every document group, attached only when groups were
   * given.
   */
  function ToEntity(data: Dict, files: FileMapper.Files): (r: Horse)
    requires FileMapper.Readable(files)
    ensures r.columns.Keys == Keys
    ensures forall k :: k in Keys ==> r.columns[k] == Get(data, k)
    ensures r.files == FileMapper.CreateFiles(files)
    ensures |r.files| == FileMapper.TotalCount(files)
  {
    Horse(Project(data, Keys), if files != [] then FileMapper.CreateFiles(files) else [])
  }

  /** A stored horse `from_entity` can read: its type a member, its files objects (or `None`). */
  predicate Readable(h: Dict, files: seq<Value>) {
    && Attr(h, "ja_type").Enum?
    && forall i :: 0 <= i < |files| ==> files[i].PyNone? || files[i].Object?
  }

  /**
   * `from_entity`: the stored columns and the type by value, plus, when
   * documents are asked for, the horse's stored files as dictionaries.
   */
  function FromEntity(h: Dict, files: seq<Value>, documents: bool): (r: Dict)
    requires Readable(h, files)
    ensures r.Keys == StoredKeys + {"ja_type"} + (if documents then {"files"} else {})
    ensures forall k :: k in StoredKeys ==> r[k] == Attr(h, k)
    ensures r["ja_type"] == Str(Attr(h, "ja_type").member.value)
    ensures documents ==> r["files"] == List(FileMapper.Listed(files))
  {
    KeysApart();
    var base := Project(h, StoredKeys)["ja_type" := Str(Attr(h, "ja_type").member.value)];
    if documents then base["files" := List(FileMapper.Listed(files))] else base
  }

  /** `from_simple_form`: the nine columns, and the deletion flag defaulting to `False`. */
  function FromSimpleForm(data: Dict): (r: Dict)
    ensures r.Keys == Keys + {"is_deleted"}
    ensures forall k :: k in Keys ==> r[k] == Get(data, k)
    ensures "is_deleted" !in data ==> r["is_deleted"] == Bool(false)
    ensures "is_deleted" in data ==> r["is_deleted"] == data["is_deleted"]
  {
    KeysApart();
    Project(data, Keys)["is_deleted" := GetOr(data, "is_deleted", Bool(false))]
  }

  /**
   * A horse built from a serialised one keeps its columns, the type as its
   * value; the serialised files are not read back, so no files are attached.
   */
  lemma {:induction false} EntityRoundTrip(h: Dict, files: seq<Value>, documents: bool)
    requires Readable(h, files)
    ensures ToEntity(FromEntity(h, files, documents), []).columns
         == Project(h, Keys)["ja_type" := Str(Attr(h, "ja_type").member.value)]
    ensures ToEntity(FromEntity(h, files, documents), []).files == []
  {
    KeysApart();
    var s := FromEntity(h, files, documents);
    var a := ToEntity(s, []).columns;
    var b := Project(h, Keys)["ja_type" := Str(Attr(h, "ja_type").member.value)];
    forall k | k in a.Keys ensures a[k] == b[k] {
      assert a[k] == Get(s, k);
      if k != "ja_type" {
        assert k in StoredKeys;
      }
    }
  }

  /** The simple form's deletion flag is not a constructor argument: the horse built from it has the form's nine fields. */
  lemma {:induction false} SimpleFormToEntity(data: Dict)
    ensures ToEntity(FromSimpleForm(data), []).columns == Project(data, Keys)
  {
    KeysApart();
    var a := ToEntity(FromSimpleForm(data), []).columns;
    forall k | k in a.Keys ensures a[k] == Project(data, Keys)[k] {
      assert a[k] == Get(FromSimpleForm(data), k);
    }
  }

  /** With documents, every stored file is listed, in order, as its `to_dict` dictionary. */
  lemma FilesListed(h: Dict, files: seq<Value>)
    requires Readable(h, files) && forall i :: 0 <= i < |files| ==> files[i].Object?
    ensures FromEntity(h, files, true)["files"].items == seq(|files|, i requires 0 <= i < |files| => Dict(FileMapper.ToDict(files[i].attrs)))
    ensures forall i :: 0 <= i < |files| ==>
      && FromEntity(h, files, true)["files"].items[i].entries.Keys == FileMapper.ToDictKeys
      && FromEntity(h, files, true)["files"].items[i].entries["uploaded_at"] == Attr(files[i].attrs, "inserted_at")
  {
    forall i | 0 <= i < |files| ensures FileMapper.ToDict(files[i].attrs).Keys == FileMapper.ToDictKeys
                                  && FileMapper.ToDict(files[i].attrs)["uploaded_at"] == Attr(files[i].attrs, "inserted_at") {
      FileMapper.ToDictShape(files[i].attrs);
    }
  }
}
