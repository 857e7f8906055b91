/**
 * The contact-message mapper: a message serialised as stored, a new
 * message (pending unless the data names a status), and the projections
 * of the create and edit forms.
 */
module ContactMapper {
  import opened PyValues
  import Enums

  const TextKeys := {"name", "email", "message"}
  /** The columns `from_entity` writes, the status as stored (the member itself, not its value). */
  const StoredKeys := TextKeys + {"id", "status", "inserted_at", "updated_at", "is_deleted"}

  lemma KeysApart()
    ensures "status" !in TextKeys
  {
  }

  /** `from_entity`: the message's columns as stored. */
  function FromEntity(m: Dict): (r: Dict)
    ensures r.Keys == StoredKeys
    ensures forall k :: k in StoredKeys ==> r[k] == Attr(m, k)
  {
    Project(m, StoredKeys)
  }

  /**
   * `to_entity` and `from_create_form`, which read the same fields: the
   * texts with `.get`, and the status defaulting to pending when the key is
   * absent.
   */
  function WithStatus(data: Dict): (r: Dict)
    ensures r.Keys == TextKeys + {"status"}
    ensures forall k :: k in TextKeys ==> r[k] == Get(data, k)
    ensures "status" !in data ==> r["status"] == Enum(Enums.Pending)
    ensures "status" in data ==> r["status"] == data["status"]
  {
    KeysApart();
    Project(data, TextKeys)["status" := GetOr(data, "status", Enum(Enums.Pending))]
  }

  /** `from_edit_form` and `to_form`, which read the same fields: the texts and the status, with no default. */
  function FormFields(data: Dict): (r: Dict)
    ensures r.Keys == TextKeys + {"status"}
    ensures forall k :: k in TextKeys + {"status"} ==> r[k] == Get(data, k)
  {
    Project(data, TextKeys + {"status"})
  }

  /** A message created from create-form data is pending unless the form held a status. */
  lemma CreatedPending(data: Dict)
    requires "status" !in data
    ensures WithStatus(WithStatus(data))["status"] == Enum(Enums.Pending)
    ensures Enums.Pending.name == "PENDING"
  {
  }

  /**
   * The edit form's dictionary always has a `status` key, so building a
   * message from it never applies the pending default: with no status in
   * the form, the message gets `None`.
   */
  lemma EditFormDefeatsDefault(data: Dict)
    requires "status" !in data
    ensures WithStatus(FormFields(data))["status"] == PyNone
  {
  }

  /** The default is applied once: building from an already-defaulted dictionary changes nothing. */
  lemma {:induction false} WithStatusIdempotent(data: Dict)
    ensures WithStatus(WithStatus(data)) == WithStatus(data)
  {
    KeysApart();
    var a := WithStatus(WithStatus(data));
    var b := WithStatus(data);
    forall k | k in a.Keys ensures a[k] == b[k] {
      if k != "status" {
        assert a[k] == Get(b, k);
      }
    }
  }

  /** A message built from a serialised one keeps its texts and status (as stored). */
  lemma {:induction false} EntityRoundTrip(m: Dict)
    ensures WithStatus(FromEntity(m)) == Project(m, TextKeys + {"status"})
  {
    KeysApart();
    var a := WithStatus(FromEntity(m));
    var b := Project(m, TextKeys + {"status"});
    forall k | k in a.Keys ensures a[k] == b[k] {
      if k != "status" {
        assert a[k] == Get(FromEntity(m), k);
      }
    }
  }
}
