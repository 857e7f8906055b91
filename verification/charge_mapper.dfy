/**
 * The charge mapper: a charge entity to its dictionary and back, and the
 * projections the charge views apply to form data and to the partially
 * filled charge kept in the session between steps.
 */
module ChargeMapper {
  import opened PyValues

  /** The fields the charge form edits. */
  const FormKeys := {"amount", "observations", "payment_method", "date_of_charge"}
  /** The session also keeps who was charged and by whom. */
  const PartyKeys := {"employee_id", "jya_id"}
  const SessionKeys := FormKeys + PartyKeys
  /** The columns `to_entity` sets. */
  const EntityKeys := SessionKeys + {"is_archived"}
  /** The columns `from_entity` writes as stored, beside the payment method. */
  const StoredKeys := (SessionKeys - {"payment_method"}) + {"id", "inserted_at", "updated_at", "is_archived"}

  lemma KeysApart()
    ensures FormKeys !! PartyKeys
    ensures "id" !in EntityKeys && "inserted_at" !in EntityKeys && "updated_at" !in EntityKeys
    ensures "payment_method" !in StoredKeys
  {
  }

  /** `from_entity`: every column as stored, the payment method by value. */
  function FromEntity(c: Dict): (r: Dict)
    requires Attr(c, "payment_method").Enum?
    ensures r.Keys == StoredKeys + {"payment_method"}
    ensures r["payment_method"] == Str(Attr(c, "payment_method").member.value)
    ensures forall k :: k in StoredKeys ==> r[k] == Attr(c, k)
  {
    KeysApart();
    Project(c, StoredKeys)["payment_method" := Str(Attr(c, "payment_method").member.value)]
  }

  /** `to_entity`: the constructor arguments, each read with `.get`; never an id or a timestamp. */
  function ToEntity(data: Dict): (r: Dict)
    ensures r.Keys == EntityKeys
    ensures "id" !in r && "inserted_at" !in r && "updated_at" !in r
    ensures forall k :: k in EntityKeys ==> r[k] == Get(data, k)
  {
    KeysApart();
    Project(data, EntityKeys)
  }

  /**
   * `from_form` and `to_form`, which read the same four fields: the form
   * never carries who was charged or by whom.
   */
  function FormFields(data: Dict): (r: Dict)
    ensures r.Keys == FormKeys
    ensures forall k :: k in PartyKeys ==> k !in r
    ensures forall k :: k in FormKeys ==> r[k] == Get(data, k)
  {
    KeysApart();
    Project(data, FormKeys)
  }

  /** `from_session` and `to_session`, which read the same six fields. */
  function SessionFields(data: Dict): (r: Dict)
    ensures r.Keys == SessionKeys
    ensures forall k :: k in SessionKeys ==> r[k] == Get(data, k)
  {
    Project(data, SessionKeys)
  }

  /** Storing in the session and reading back changes nothing: `from_session(to_session(d)) == to_session(d)`. */
  lemma SessionRoundTrip(data: Dict)
    ensures SessionFields(SessionFields(data)) == SessionFields(data)
  {
  }

  /** Filling the form from a form projection, or from session data, gives the same four fields. */
  lemma FormRoundTrip(data: Dict)
    ensures FormFields(FormFields(data)) == FormFields(data)
    ensures FormFields(SessionFields(data)) == FormFields(data)
  {
    KeysApart();
  }

  /**
   * A charge built from session data has the session's six fields and no
   * archive flag (`None`).
   */
  lemma {:induction false} SessionToEntity(data: Dict)
    ensures ToEntity(SessionFields(data)) == SessionFields(data)["is_archived" := PyNone]
  {
    var r := ToEntity(SessionFields(data));
    var expected := SessionFields(data)["is_archived" := PyNone];
    forall k | k in r.Keys ensures r[k] == expected[k] {
      if k != "is_archived" {
        assert r[k] == Get(SessionFields(data), k);
      }
    }
  }

  /**
   * Serialising a charge and building one from the result keeps every
   * column `to_entity` sets, the payment method coming back as its value.
   */
  lemma {:induction false} EntityRoundTrip(c: Dict)
    requires Attr(c, "payment_method").Enum?
    ensures ToEntity(FromEntity(c)) == Project(c, EntityKeys)["payment_method" := Str(Attr(c, "payment_method").member.value)]
  {
    KeysApart();
    var r := ToEntity(FromEntity(c));
    var expected := Project(c, EntityKeys)["payment_method" := Str(Attr(c, "payment_method").member.value)];
    forall k | k in r.Keys ensures r[k] == expected[k] {
      assert r[k] == Get(FromEntity(c), k);
      if k != "payment_method" {
        assert k in StoredKeys;
      }
    }
  }
}
