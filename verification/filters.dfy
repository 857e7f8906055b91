/** The template filters: a truth value, a role id and a file kind rendered as text. */
module Filters {
  import opened Wrappers
  import opened PyValues
  import Auth

  /** `render_natural_boolean`: "Si" for a truthy value, "No" otherwise. */
  function RenderNaturalBoolean(v: Value): (r: string)
    ensures r == "Si" || r == "No"
    ensures r == "Si" <==> Truthy(v)
  {
    if Truthy(v) then "Si" else "No"
  }

  /** The role names by id. */
  const Roles: map<int, string> := map[1 := "Técnico", 2 := "Ecuestre", 3 := "Voluntario", 4 := "Administración"]
  const Undefined := "No definido"

  /**
   * The table key a Python value is equal to: an integer is itself and a
   * boolean equals 0 or 1 (Python's `True == 1`); nothing else equals an
   * integer key.
   */
  function KeyOf(v: Value): (r: int)
    requires v.Int? || v.Bool?
  {
    if v.Int? then v.i else if v.b then 1 else 0
  }

  /**
   * A value `dict.get` can look up: anything but a list or a dictionary,
   * which are unhashable in Python.
   */
  predicate Hashable(v: Value) {
    !v.List? && !v.Dict?
  }

  /**
   * `render_role`: the name of a known role id, "No definido" for any other
   * hashable value; looking up a list or a dictionary raises `TypeError`.
   */
  function RenderRole(roleId: Value): (r: Result<string>)
    ensures r.Raised? <==> !Hashable(roleId)
    ensures r.Raised? ==> r.reason == "TypeError"
    ensures r.Ok? && (roleId.Int? || roleId.Bool?) && KeyOf(roleId) in Roles ==> r.value == Roles[KeyOf(roleId)]
    ensures r.Ok? && !((roleId.Int? || roleId.Bool?) && KeyOf(roleId) in Roles) ==> r.value == Undefined
  {
    if !Hashable(roleId) then Raised("TypeError")
    else if (roleId.Int? || roleId.Bool?) && KeyOf(roleId) in Roles then Ok(Roles[KeyOf(roleId)])
    else Ok(Undefined)
  }

  /** The fallback is no role's name, and no two roles share a name: a rendered name identifies its role. */
  lemma RoleNamesIdentify(a: Value, b: Value)
    requires RenderRole(a).Ok? && RenderRole(a) == RenderRole(b) && RenderRole(a).value != Undefined
    ensures a.Int? || a.Bool?
    ensures KeyOf(a) == KeyOf(b)
  {
  }

  /** Only the ids 1 to 4 name a role. */
  lemma DefinedRoles(i: int)
    ensures RenderRole(Int(i)) != Ok(Undefined) <==> 1 <= i <= 4
  {
  }

  /** `True` is looked up as the key 1, so it renders as the first role; text is never a role id. */
  lemma RoleLookupByEquality(s: string)
    ensures RenderRole(Bool(true)) == Ok("Técnico")
    ensures RenderRole(Str(s)) == Ok(Undefined)
  {
  }

  /** Only a list or a dictionary makes the lookup raise; a date, an enum member or an entity is simply no role. */
  lemma UnhashableRaises(items: seq<Value>, entries: map<string, Value>, t: int, m: Member, attrs: map<string, Value>)
    ensures RenderRole(List(items)) == Raised("TypeError")
    ensures RenderRole(Dict(entries)) == Raised("TypeError")
    ensures RenderRole(Date(t)) == Ok(Undefined) && RenderRole(Enum(m)) == Ok(Undefined)
    ensures RenderRole(Object(attrs)) == Ok(Undefined) && RenderRole(PyNone) == Ok(Undefined)
  {
  }

  /** The filter's names are the seeded roles' own: each seeded role's id renders as its name, and no other id has one. */
  lemma RolesMatchSeed(i: int)
    ensures forall r :: r in Auth.SeedRoles ==> RenderRole(Int(r.id)) == Ok(r.name)
    ensures RenderRole(Int(i)) != Ok(Undefined) <==> exists r :: r in Auth.SeedRoles && r.id == i
  {
    SeedNamesRendered();
    SeedIdsOnly(i);
  }

  lemma SeedNamesRendered()
    ensures forall r :: r in Auth.SeedRoles ==> RenderRole(Int(r.id)) == Ok(r.name)
  {
    forall r | r in Auth.SeedRoles ensures RenderRole(Int(r.id)) == Ok(r.name) {
      assert r == Auth.SeedRoles[0] || r == Auth.SeedRoles[1] || r == Auth.SeedRoles[2] || r == Auth.SeedRoles[3];
    }
  }

  lemma SeedIdsOnly(i: int)
    ensures RenderRole(Int(i)) != Ok(Undefined) <==> exists r :: r in Auth.SeedRoles && r.id == i
  {
    DefinedRoles(i);
    if 1 <= i <= 4 {
      assert Auth.SeedRoles[i - 1].id == i;
    } else {
      forall r | r in Auth.SeedRoles ensures r.id != i {
        assert r == Auth.SeedRoles[0] || r == Auth.SeedRoles[1] || r == Auth.SeedRoles[2] || r == Auth.SeedRoles[3];
      }
    }
  }

  /** `render_file_type`: "(Url)" for a link, "(Archivo)" for an uploaded file. */
  function RenderFileType(isLink: Value): (r: string)
    ensures r == "(Url)" || r == "(Archivo)"
    ensures r == "(Url)" <==> Truthy(isLink)
  {
    if Truthy(isLink) then "(Url)" else "(Archivo)"
  }
}
