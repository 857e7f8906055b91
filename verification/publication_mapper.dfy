/**
 * The publication mapper: a publication serialised with its status and type
 * by value, a new publication built from data (a draft unless the data
 * names a status), and the projections of the create and edit forms.
 */
module PublicationMapper {
  import opened PyValues
  import Enums

  /** The fields both forms edit. */
  const EditKeys := {"title", "summary", "content", "status", "type"}
  /** The constructor arguments `to_entity` reads as they are. */
  const ColumnKeys := {"title", "summary", "content", "author_id", "publish_date", "type"}
  /** The columns `from_entity` writes as stored. */
  const StoredKeys := {"id", "publish_date", "create_date", "update_date", "title", "summary", "content",
                       "author_id", "is_deleted"}

  lemma KeysApart()
    ensures "status" !in ColumnKeys && "author_id" !in EditKeys
    ensures "status" !in StoredKeys && "type" !in StoredKeys
  {
  }

  /** A stored publication `from_entity` can read: its status and type are members. */
  predicate Readable(p: Dict) {
    Attr(p, "status").Enum? && Attr(p, "type").Enum?
  }

  /** `from_entity`: the stored columns, the status and the type by value. */
  function FromEntity(p: Dict): (r: Dict)
    requires Readable(p)
    ensures r.Keys == StoredKeys + {"status", "type"}
    ensures forall k :: k in StoredKeys ==> r[k] == Attr(p, k)
    ensures r["status"] == Str(Attr(p, "status").member.value) && r["type"] == Str(Attr(p, "type").member.value)
  {
    KeysApart();
    Project(p, StoredKeys)
      + map["status" := Str(Attr(p, "status").member.value), "type" := Str(Attr(p, "type").member.value)]
  }

  /** `to_entity`: the columns read with `.get`, the status defaulting to a draft when the key is absent. */
  function ToEntity(data: Dict): (r: Dict)
    ensures r.Keys == ColumnKeys + {"status"}
    ensures forall k :: k in ColumnKeys ==> r[k] == Get(data, k)
    ensures "status" !in data ==> r["status"] == Enum(Enums.Draft)
    ensures "status" in data ==> r["status"] == data["status"]
  {
    KeysApart();
    Project(data, ColumnKeys)["status" := GetOr(data, "status", Enum(Enums.Draft))]
  }

  /** `from_create_form`: the edited fields, and no author yet (the controller sets it). */
  function FromCreateForm(data: Dict): (r: Dict)
    ensures r.Keys == EditKeys + {"author_id"}
    ensures r["author_id"] == PyNone
    ensures forall k :: k in EditKeys ==> r[k] == Get(data, k)
  {
    KeysApart();
    Project(data, EditKeys)["author_id" := PyNone]
  }

  /** `from_edit_form`: exactly the five edited fields; the author is left alone. */
  function FromEditForm(data: Dict): (r: Dict)
    ensures r.Keys == EditKeys && "author_id" !in r
    ensures forall k :: k in EditKeys ==> r[k] == Get(data, k)
  {
    KeysApart();
    Project(data, EditKeys)
  }

  /** `to_form`: the edited fields and the author. */
  function ToForm(data: Dict): (r: Dict)
    ensures r.Keys == EditKeys + {"author_id"}
    ensures r["author_id"] == Get(data, "author_id")
    ensures forall k :: k in EditKeys ==> r[k] == Get(data, k)
  {
    KeysApart();
    Project(data, EditKeys + {"author_id"})
  }

  /**
   * Through the create form the draft default never applies: the form's
   * dictionary always has a `status` key, so the publication gets whatever
   * the form held there, `None` included.
   */
  lemma CreateFormStatusKept(data: Dict)
    ensures ToEntity(FromCreateForm(data))["status"] == Get(data, "status")
    ensures ToEntity(FromCreateForm(data))["author_id"] == PyNone
    ensures ToEntity(FromCreateForm(data))["publish_date"] == PyNone
  {
    KeysApart();
  }

  /** Data without a status makes a draft. */
  lemma NoStatusMakesDraft(data: Dict)
    requires "status" !in data
    ensures ToEntity(data)["status"] == Enum(Enums.Draft)
    ensures Enums.Draft.name == "DRAFT"
  {
  }

  /** Editing drops the author: reading an edit back from a filled form is reading it from the data. */
  lemma {:induction false} EditIgnoresAuthor(data: Dict)
    ensures FromEditForm(ToForm(data)) == FromEditForm(data)
  {
    KeysApart();
    var a := FromEditForm(ToForm(data));
    var b := FromEditForm(data);
    forall k | k in a.Keys ensures a[k] == b[k] {
      assert a[k] == Get(ToForm(data), k);
    }
  }

  /** A form filled from a stored publication shows its texts and author, its status and type by value. */
  lemma {:induction false} FormOfEntity(p: Dict)
    requires Readable(p)
    ensures var f := ToForm(FromEntity(p));
      && f["title"] == Attr(p, "title") && f["summary"] == Attr(p, "summary") && f["content"] == Attr(p, "content")
      && f["author_id"] == Attr(p, "author_id")
      && f["status"] == Str(Attr(p, "status").member.value) && f["type"] == Str(Attr(p, "type").member.value)
  {
    KeysApart();
    var s := FromEntity(p);
    assert "title" in StoredKeys && "summary" in StoredKeys && "content" in StoredKeys && "author_id" in StoredKeys;
    assert s["title"] == Attr(p, "title");
  }
}
