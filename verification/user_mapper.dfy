/**
 * The user mapper: a user built from data, its password hashed on
 * creation and passed through on update, and a stored user serialised
 * without its password.
 */
module UserMapper {
  import opened PyValues

  /** The columns `to_entity` reads as they are. */
  const TextKeys := {"email", "alias"}
  /** The flags and role, each with its default. */
  const DefaultedKeys := {"enabled", "system_admin", "role_id", "is_deleted"}
  /** The columns `from_entity` writes as stored. */
  const StoredKeys := TextKeys + DefaultedKeys + {"id", "inserted_at", "updated_at"}

  lemma KeysApart()
    ensures TextKeys !! DefaultedKeys
    ensures "password" !in TextKeys + DefaultedKeys && "password" !in StoredKeys && "assigned_to" !in StoredKeys
  {
  }

  /** The hash function rejects an empty or missing password. */
  predicate Hashable(data: Dict) {
    Get(data, "password").Str? && Get(data, "password").s != ""
  }

  /**
   * `to_entity`: on creation the password is replaced by its hash (`hash`
   * stands for the bcrypt call), otherwise stored as given; `enabled`
   * defaults to true, `system_admin` and `is_deleted` to false, the role to
   * none.
   */
  function ToEntity(data: Dict, isCreation: bool, hash: string -> string): (r: Dict)
    requires isCreation ==> Hashable(data)
    ensures r.Keys == TextKeys + DefaultedKeys + {"password"}
    ensures forall k :: k in TextKeys ==> r[k] == Get(data, k)
    ensures isCreation ==> r["password"] == Str(hash(data["password"].s))
    ensures !isCreation ==> r["password"] == Get(data, "password")
    ensures r["enabled"] == GetOr(data, "enabled", Bool(true))
    ensures r["system_admin"] == GetOr(data, "system_admin", Bool(false))
    ensures r["role_id"] == Get(data, "role_id")
    ensures r["is_deleted"] == GetOr(data, "is_deleted", Bool(false))
  {
    KeysApart();
    var password := if isCreation then Str(hash(data["password"].s)) else Get(data, "password");
    Project(data, TextKeys)
      + map["password" := password, "enabled" := GetOr(data, "enabled", Bool(true)),
            "system_admin" := GetOr(data, "system_admin", Bool(false)), "role_id" := Get(data, "role_id"),
            "is_deleted" := GetOr(data, "is_deleted", Bool(false))]
  }

  /** A stored user `from_entity` can read: its employee is an object or missing. */
  predicate Readable(u: Dict) {
    Attr(u, "employee").PyNone? || Attr(u, "employee").Object?
  }

  /** `from_entity`: the stored columns, the id of the assigned employee (or `None`), and never the password. */
  function FromEntity(u: Dict): (r: Dict)
    requires Readable(u)
    ensures r.Keys == StoredKeys + {"assigned_to"}
    ensures "password" !in r
    ensures forall k :: k in StoredKeys ==> r[k] == Attr(u, k)
    ensures Attr(u, "employee").Object? ==> r["assigned_to"] == Attr(Attr(u, "employee").attrs, "id")
    ensures Attr(u, "employee").PyNone? ==> r["assigned_to"] == PyNone
  {
    KeysApart();
    var employee := Attr(u, "employee");
    Project(u, StoredKeys)["assigned_to" := if Truthy(employee) then Attr(employee.attrs, "id") else PyNone]
  }

  /** A serialised user has no password, so no user can be created from it. */
  lemma SerialisedNotCreatable(u: Dict)
    requires Readable(u)
    ensures !Hashable(FromEntity(u))
  {
  }

  /**
   * Updating a user from its serialised form keeps its email, alias, flags
   * and role, but the password comes back `None`.
   */
  lemma {:induction false} UpdateRoundTrip(u: Dict, hash: string -> string)
    requires Readable(u)
    ensures ToEntity(FromEntity(u), false, hash) == Project(u, TextKeys + DefaultedKeys)["password" := PyNone]
  {
    var s := FromEntity(u);
    UpdateFromStored(u, s, ToEntity(s, false, hash));
  }

  /** The update direction over any dictionary holding the stored columns and no password. */
  lemma {:induction false} UpdateFromStored(u: Dict, s: Dict, a: Dict)
    requires forall k :: k in StoredKeys ==> k in s && s[k] == Attr(u, k)
    requires "password" !in s
    requires a.Keys == TextKeys + DefaultedKeys + {"password"}
    requires forall k :: k in TextKeys ==> a[k] == Get(s, k)
    requires a["password"] == Get(s, "password")
    requires a["enabled"] == GetOr(s, "enabled", Bool(true))
    requires a["system_admin"] == GetOr(s, "system_admin", Bool(false))
    requires a["role_id"] == Get(s, "role_id")
    requires a["is_deleted"] == GetOr(s, "is_deleted", Bool(false))
    ensures a == Project(u, TextKeys + DefaultedKeys)["password" := PyNone]
  {
    KeysApart();
    var b := Project(u, TextKeys + DefaultedKeys)["password" := PyNone];
    forall k | k in a.Keys ensures a[k] == b[k] {
      if k != "password" {
        assert k in StoredKeys;
      }
    }
  }

  /** A user created from data with no flags is enabled, not an administrator, has no role and is not deleted. */
  lemma CreatedDefaults(data: Dict, hash: string -> string)
    requires Hashable(data) && forall k :: k in DefaultedKeys ==> k !in data
    ensures var r := ToEntity(data, true, hash);
      Truthy(r["enabled"]) && !Truthy(r["system_admin"]) && r["role_id"] == PyNone && !Truthy(r["is_deleted"])
  {
  }

  /** The stored password is never the plain one when the hash never returns its input. */
  lemma PasswordNotStoredPlain(data: Dict, hash: string -> string)
    requires Hashable(data) && forall s :: hash(s) != s
    ensures ToEntity(data, true, hash)["password"] != Get(data, "password")
  {
  }
}
