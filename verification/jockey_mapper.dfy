/**
 * The jockey/amazon mapper: a jockey entity serialised into the five
 * sections the views show (general, health, family, organisation of work,
 * school), and the registration form's sections turned into the arguments
 * of a new entity, with its school, work assignment and family members.
 */
module JockeyMapper {
  import opened PyValues
  import Forms
  import Extras = JockeyExtrasMapper

  /** The entity columns `from_entity` writes at the top level. */
  const TopKeys := {"id", "inserted_at", "updated_at", "is_deleted"}
  const SectionNames := {"general_information", "health_information", "family_information",
                         "organization_work", "school_information"}

  lemma TopApart()
    ensures TopKeys !! SectionNames
  {
  }

  /** The section `to_entity` reads the work fields from is not one `from_entity` writes. */
  lemma WorkSectionNameUnwritten()
    ensures "work_assignment_information" !in TopKeys + SectionNames
  {
  }

  // from_entity

  /** `x.name if x else None`: an enum column by name, `None` when unset. */
  function NameOrNone(v: Value): (r: Value)
    requires !Truthy(v) || v.Enum?
    ensures Truthy(v) ==> r == Str(v.member.name)
    ensures !Truthy(v) ==> r == PyNone
  {
    if Truthy(v) then Str(v.member.name) else PyNone
  }

  /** `x.value if x else None`: an enum column by value, `None` when unset. */
  function ValueOrNone(v: Value): (r: Value)
    requires !Truthy(v) || v.Enum?
    ensures Truthy(v) ==> r == Str(v.member.value)
    ensures !Truthy(v) ==> r == PyNone
  {
    if Truthy(v) then Str(v.member.value) else PyNone
  }

  predicate OptionalEnum(e: Dict, k: string) {
    !Truthy(Attr(e, k)) || Attr(e, k).Enum?
  }

  /** The stored family members: entities whose education level is a member. */
  predicate MembersReadable(ms: seq<Value>) {
    forall i :: 0 <= i < |ms| ==> ms[i].Object? && Attr(ms[i].attrs, "education_level").Enum?
  }

  /**
   * An entity `from_entity` can serialise: its optional enum columns are
   * members or unset, its family members and work assignment are readable,
   * and it has a school institution (whose attributes are read unguarded).
   */
  predicate Readable(e: Dict) {
    && OptionalEnum(e, "disability_diagnosis") && OptionalEnum(e, "disability_type")
    && OptionalEnum(e, "pension_type") && OptionalEnum(e, "family_assignment_type")
    && Attr(e, "family_members").List? && MembersReadable(Attr(e, "family_members").items)
    && (Attr(e, "work_assignment").PyNone?
        || (Attr(e, "work_assignment").Object? && Extras.WorkReadable(Attr(e, "work_assignment").attrs)))
    && Attr(e, "school_institution").Object?
  }

  function PhoneDict(e: Dict): Dict {
    map["country_code" := Attr(e, "country_code"), "area_code" := Attr(e, "area_code"), "number" := Attr(e, "phone")]
  }

  function GeneralSection(e: Dict): Dict {
    Project(e, Forms.GeneralTopKeys)
      + map["address" := Dict(Project(e, Forms.AddressKeys)), "emergency_contact" := Dict(Project(e, Forms.EmergencyKeys)),
            "phone" := Dict(PhoneDict(e))]
  }

  /** The health columns that are not enums. */
  const HealthPlain := {"has_disability", "disability_other", "social_security", "social_security_number",
                        "has_curatorship", "curatorship_observations"}

  function HealthSection(e: Dict): Dict
    requires OptionalEnum(e, "disability_diagnosis") && OptionalEnum(e, "disability_type")
  {
    Project(e, HealthPlain)
      + map["disability_diagnosis" := NameOrNone(Attr(e, "disability_diagnosis")),
            "disability_type" := NameOrNone(Attr(e, "disability_type"))]
  }

  /** Each stored family member as `FamilyMemberMapper.from_entity` serialises it. */
  function MemberDicts(ms: seq<Value>): (r: seq<Value>)
    requires MembersReadable(ms)
    ensures |r| == |ms|
  {
    seq(|ms|, i requires 0 <= i < |ms| && MembersReadable(ms) => Dict(Extras.FamilyFromEntity(ms[i].attrs)))
  }

  function FamilySection(e: Dict): Dict
    requires OptionalEnum(e, "pension_type") && OptionalEnum(e, "family_assignment_type")
    requires Attr(e, "family_members").List? && MembersReadable(Attr(e, "family_members").items)
  {
    map["has_family_assignment" := Attr(e, "has_family_assignment"), "has_pension" := Attr(e, "has_pension"),
        "pension_type" := NameOrNone(Attr(e, "pension_type")), "pension_details" := Attr(e, "pension_details"),
        "family_assignment_type" := ValueOrNone(Attr(e, "family_assignment_type")),
        "family_members" := List(MemberDicts(Attr(e, "family_members").items))]
  }

  function WorkSection(e: Dict): Dict
    requires Attr(e, "work_assignment").PyNone?
      || (Attr(e, "work_assignment").Object? && Extras.WorkReadable(Attr(e, "work_assignment").attrs))
  {
    Project(e, Forms.WorkTopKeys) + map["work_assignments" := Dict(Extras.WorkFromEntity(Attr(e, "work_assignment")))]
  }

  function SchoolSection(e: Dict): Dict
    requires Attr(e, "school_institution").Object?
  {
    map["school_institution" := Dict(Extras.SchoolFromEntity(Attr(e, "school_institution").attrs)),
        "current_grade_year" := Attr(e, "current_grade_year"), "school_observations" := Attr(e, "school_observations"),
        "professionals" := Attr(e, "professionals"), "emergency_contact" := Dict(Project(e, Forms.EmergencyKeys))]
  }

  /** The serialised jockey: its top-level columns and the five sections. */
  function Assemble(top: Dict, general: Dict, health: Dict, family: Dict, work: Dict, school: Dict): (r: Dict)
    requires top.Keys == TopKeys
    ensures r.Keys == TopKeys + SectionNames
    ensures forall k :: k in TopKeys ==> r[k] == top[k]
  {
    TopApart();
    top + Sections(general, health, family, work, school)
  }

  /** The five sections under their names. */
  function Sections(general: Dict, health: Dict, family: Dict, work: Dict, school: Dict): (r: Dict)
    ensures r.Keys == SectionNames
    ensures r["general_information"] == Dict(general) && r["health_information"] == Dict(health)
    ensures r["family_information"] == Dict(family) && r["organization_work"] == Dict(work)
    ensures r["school_information"] == Dict(school)
  {
    map["general_information" := Dict(general), "health_information" := Dict(health),
        "family_information" := Dict(family), "organization_work" := Dict(work),
        "school_information" := Dict(school)]
  }

  /**
   * `from_entity(jockey)`: no jockey (`None`) gives an empty dictionary; a
   * jockey gives its id, timestamps and deletion flag and its five
   * sections, the work section under `organization_work`.
   */
  function FromEntity(j: Value): (r: Dict)
    requires j.PyNone? || (j.Object? && Readable(j.attrs))
    ensures !Truthy(j) ==> r == map[]
    ensures j.Object? ==> r.Keys == TopKeys + SectionNames
    ensures j.Object? ==> forall k :: k in TopKeys ==> r[k] == Attr(j.attrs, k)
    ensures j.Object? ==> "work_assignment_information" !in r
  {
    WorkSectionNameUnwritten();
    if !Truthy(j) then map[]
    else
      var e := j.attrs;
      Assemble(Project(e, TopKeys), GeneralSection(e), HealthSection(e), FamilySection(e), WorkSection(e), SchoolSection(e))
  }

  /** Each section of a serialised jockey, as built from the entity. */
  lemma FromEntitySections(e: Dict)
    requires Readable(e)
    ensures var r := FromEntity(Object(e));
      && r["general_information"] == Dict(GeneralSection(e)) && r["health_information"] == Dict(HealthSection(e))
      && r["family_information"] == Dict(FamilySection(e)) && r["organization_work"] == Dict(WorkSection(e))
      && r["school_information"] == Dict(SchoolSection(e))
  {
  }

  // to_entity

  /** A family-member entry of the form `to_entity` can read: when truthy, a dictionary with a text `is_optional`. */
  predicate MemberEntryReadable(m: Value) {
    Truthy(m) ==> m.Dict? && Get(m.entries, "is_optional").Str?
  }

  /** The entry is saved: it is truthy and its `is_optional` text lower-cases to "false". */
  predicate Filled(m: Value) {
    Truthy(m) && m.Dict? && Forms.SecondFilled(Get(m.entries, "is_optional"))
  }

  /** `family.get("family_members", [])` can be iterated and each truthy entry read. */
  predicate MembersEntryReadable(f: Dict) {
    "family_members" !in f
      || (f["family_members"].List? && forall i :: 0 <= i < |f["family_members"].items| ==>
                                          MemberEntryReadable(f["family_members"].items[i]))
  }

  function MemberEntries(f: Dict): (r: seq<Value>)
    requires MembersEntryReadable(f)
    ensures forall i :: 0 <= i < |r| ==> MemberEntryReadable(r[i])
  {
    if "family_members" in f then f["family_members"].items else []
  }

  /** The entries `to_entity` keeps, in order: the filled ones. */
  function FilledEntries(ms: seq<Value>): (r: seq<Dict>)
    requires forall i :: 0 <= i < |ms| ==> MemberEntryReadable(ms[i])
    ensures |r| <= |ms|
  {
    if ms == [] then []
    else (if Filled(ms[0]) then [ms[0].entries] else []) + FilledEntries(ms[1..])
  }

  /**
   * The members `to_entity` appends, in order: each filled entry built by
   * `FamilyMemberMapper.to_entity`, the others skipped.
   */
  function Selected(ms: seq<Value>): (r: seq<Dict>)
    requires forall i :: 0 <= i < |ms| ==> MemberEntryReadable(ms[i])
    ensures |r| <= |ms|
    ensures forall j :: 0 <= j < |r| ==> "id" !in r[j]
  {
    var f := FilledEntries(ms);
    seq(|f|, j requires 0 <= j < |f| => Extras.FamilyToEntity(f[j]))
  }

  lemma {:induction false} FilledEntriesAppend(a: seq<Value>, b: seq<Value>)
    requires forall i :: 0 <= i < |a| ==> MemberEntryReadable(a[i])
    requires forall i :: 0 <= i < |b| ==> MemberEntryReadable(b[i])
    ensures FilledEntries(a + b) == FilledEntries(a) + FilledEntries(b)
  {
    if a == [] {
      assert a + b == b;
    } else {
      var head := if Filled(a[0]) then [a[0].entries] else [];
      assert (a + b)[0] == a[0] && (a + b)[1..] == a[1..] + b;
      assert FilledEntries(a + b) == head + FilledEntries(a[1..] + b);
      FilledEntriesAppend(a[1..], b);
      assert FilledEntries(a) == head + FilledEntries(a[1..]);
    }
  }

  /** Selection keeps the order of the entries: it distributes over concatenation. */
  lemma {:induction false} SelectedAppend(a: seq<Value>, b: seq<Value>)
    requires forall i :: 0 <= i < |a| ==> MemberEntryReadable(a[i])
    requires forall i :: 0 <= i < |b| ==> MemberEntryReadable(b[i])
    ensures Selected(a + b) == Selected(a) + Selected(b)
  {
    FilledEntriesAppend(a, b);
  }

  lemma {:induction false} FilledEntriesFromFilled(ms: seq<Value>)
    requires forall i :: 0 <= i < |ms| ==> MemberEntryReadable(ms[i])
    ensures forall j :: 0 <= j < |FilledEntries(ms)| ==>
      exists i :: 0 <= i < |ms| && Filled(ms[i]) && FilledEntries(ms)[j] == ms[i].entries
  {
    if ms != [] {
      var rest := ms[1..];
      FilledEntriesFromFilled(rest);
      var head := if Filled(ms[0]) then [ms[0].entries] else [];
      assert FilledEntries(ms) == head + FilledEntries(rest);
      forall j | 0 <= j < |FilledEntries(ms)|
        ensures exists i :: 0 <= i < |ms| && Filled(ms[i]) && FilledEntries(ms)[j] == ms[i].entries
      {
        if j < |head| {
          assert Filled(ms[0]) && FilledEntries(ms)[j] == ms[0].entries;
        } else {
          assert FilledEntries(ms)[j] == FilledEntries(rest)[j - |head|];
          var i :| 0 <= i < |rest| && Filled(rest[i]) && FilledEntries(rest)[j - |head|] == rest[i].entries;
          assert ms[i + 1] == rest[i];
        }
      }
    } else {
      assert FilledEntries(ms) == [];
    }
  }

  /** Every saved member is built from a filled entry. */
  lemma SelectedFromFilled(ms: seq<Value>)
    requires forall i :: 0 <= i < |ms| ==> MemberEntryReadable(ms[i])
    ensures forall j :: 0 <= j < |Selected(ms)| ==>
      exists i :: 0 <= i < |ms| && Filled(ms[i]) && Selected(ms)[j] == Extras.FamilyToEntity(ms[i].entries)
  {
    FilledEntriesFromFilled(ms);
    assert |Selected(ms)| == |FilledEntries(ms)|;
    assert forall j :: 0 <= j < |Selected(ms)| ==> Selected(ms)[j] == Extras.FamilyToEntity(FilledEntries(ms)[j]);
  }

  lemma {:induction false} FilledKept(ms: seq<Value>)
    requires forall i :: 0 <= i < |ms| ==> MemberEntryReadable(ms[i])
    ensures forall i :: 0 <= i < |ms| && Filled(ms[i]) ==> ms[i].entries in FilledEntries(ms)
  {
    if ms != [] {
      var rest := ms[1..];
      FilledKept(rest);
      var head := if Filled(ms[0]) then [ms[0].entries] else [];
      assert FilledEntries(ms) == head + FilledEntries(rest);
      forall i | 0 <= i < |ms| && Filled(ms[i]) ensures ms[i].entries in FilledEntries(ms) {
        if i > 0 {
          assert ms[i] == rest[i - 1];
        } else {
          assert FilledEntries(ms)[0] == ms[0].entries;
        }
      }
    }
  }

  /** Every filled entry is saved. */
  lemma FilledSelected(ms: seq<Value>)
    requires forall i :: 0 <= i < |ms| ==> MemberEntryReadable(ms[i])
    ensures forall i :: 0 <= i < |ms| && Filled(ms[i]) ==> Extras.FamilyToEntity(ms[i].entries) in Selected(ms)
  {
    FilledKept(ms);
    forall i | 0 <= i < |ms| && Filled(ms[i]) ensures Extras.FamilyToEntity(ms[i].entries) in Selected(ms) {
      var j :| 0 <= j < |FilledEntries(ms)| && FilledEntries(ms)[j] == ms[i].entries;
      assert Selected(ms)[j] == Extras.FamilyToEntity(ms[i].entries);
    }
  }

  /** `general.get("phone", {})` and its siblings are dictionaries or absent. */
  predicate GeneralShaped(g: Dict) {
    DictOrAbsent(g, "phone") && DictOrAbsent(g, "address") && DictOrAbsent(g, "emergency_contact")
  }

  /**
   * The data `to_entity` can read without raising: every section a
   * dictionary or absent, the general sub-sections likewise, readable
   * family entries, and a `work_assignments` dictionary inside
   * `work_assignment_information` (when it is missing, `None` reaches the
   * assignment mapper, which raises).
   */
  predicate ToEntityDefined(data: Dict) {
    && DictOrAbsent(data, "general_information") && DictOrAbsent(data, "family_information")
    && DictOrAbsent(data, "health_information") && DictOrAbsent(data, "school_information")
    && DictOrAbsent(data, "work_assignment_information")
    && GeneralShaped(Section(data, "general_information"))
    && DictOrAbsent(Section(data, "school_information"), "school_institution")
    && MembersEntryReadable(Section(data, "family_information"))
    && "work_assignments" in Section(data, "work_assignment_information")
    && Section(data, "work_assignment_information")["work_assignments"].Dict?
  }

  /**
   * A new jockey entity, its constructor arguments grouped as the source
   * groups them: top-level columns, general, health, school and family
   * information, the scholarship fields, the school institution, the work
   * assignment and the family members appended after construction.
   */
  datatype Jockey = Jockey(top: Dict, general: Dict, health: Dict, school: Dict, family: Dict,
                           work: Dict, institution: Dict, assignment: Dict, members: seq<Dict>)

  /** The top-level columns `to_entity` sets: no deletion flag. */
  const EntityTopKeys := {"id", "inserted_at", "updated_at"}
  const SchoolKeys := {"current_grade_year", "school_observations"}
  /** The family columns `to_entity` sets: none of the pension columns. */
  const FamilyKeys := {"has_family_assignment", "family_assignment_type"}

  lemma UnsetColumns()
    ensures "is_deleted" !in EntityTopKeys
    ensures "has_pension" !in FamilyKeys && "pension_type" !in FamilyKeys && "pension_details" !in FamilyKeys
  {
  }

  /** The general columns, read from the general section's sub-dictionaries. */
  function GeneralColumns(g: Dict): (r: Dict)
    requires GeneralShaped(g)
    ensures r.Keys == Forms.GeneralFlatKeys
  {
    Forms.GeneralInfoToFlat(g, Section(g, "address"), Section(g, "phone"), Section(g, "emergency_contact"))
  }

  /**
   * `to_entity(data)`: a jockey built from the registration form's
   * sections. The deletion flag and the pension columns are never set, the
   * work assignment has every column its mapper reads, and only the filled
   * family entries become members.
   */
  function ToEntity(data: Dict): (r: Jockey)
    requires ToEntityDefined(data)
    ensures r.top.Keys == EntityTopKeys && "is_deleted" !in r.top
    ensures r.family.Keys == FamilyKeys
    ensures "has_pension" !in r.family && "pension_type" !in r.family && "pension_details" !in r.family
    ensures r.assignment.Keys == Extras.WorkKeys
    ensures r.members == Selected(MemberEntries(Section(data, "family_information")))
  {
    UnsetColumns();
    var family := Section(data, "family_information");
    var school := Section(data, "school_information");
    var assignments := Section(data, "work_assignment_information");
    Jockey(Project(data, EntityTopKeys), GeneralColumns(Section(data, "general_information")),
           Forms.HealthInfoToFlat(Section(data, "health_information")),
           Project(school, SchoolKeys), Project(family, FamilyKeys), Project(assignments, Forms.WorkTopKeys),
           Extras.SchoolToEntity(Section(school, "school_institution")),
           Extras.WorkToEntity(assignments["work_assignments"].entries),
           Selected(MemberEntries(family)))
  }

  /** Where each part of the new entity is read from. */
  lemma ToEntityParts(data: Dict)
    requires ToEntityDefined(data)
    ensures var r := ToEntity(data);
      && r.top == Project(data, EntityTopKeys)
      && r.general == GeneralColumns(Section(data, "general_information"))
      && r.health == Forms.HealthInfoToFlat(Section(data, "health_information"))
      && r.school == Project(Section(data, "school_information"), SchoolKeys)
      && r.family == Project(Section(data, "family_information"), FamilyKeys)
      && r.work == Project(Section(data, "work_assignment_information"), Forms.WorkTopKeys)
      && r.institution == Extras.SchoolToEntity(Section(Section(data, "school_information"), "school_institution"))
      && r.assignment == Extras.WorkToEntity(Section(data, "work_assignment_information")["work_assignments"].entries)
  {
  }

  /**
   * The two directions do not meet: `from_entity` writes the work section
   * under `organization_work`, `to_entity` reads `work_assignment_information`,
   * so a serialised jockey is never data `to_entity` can read.
   */
  lemma FromEntityNotReadable(e: Dict)
    requires Readable(e)
    ensures !ToEntityDefined(FromEntity(Object(e)))
  {
  }

  /** A serialised jockey with its work section under the name `to_entity` reads. */
  function Renamed(s: Dict): (r: Dict)
    requires "organization_work" in s
    ensures r.Keys == s.Keys + {"work_assignment_information"}
    ensures r["work_assignment_information"] == s["organization_work"]
    ensures forall k :: k in s && k != "work_assignment_information" ==> r[k] == s[k]
  {
    s["work_assignment_information" := s["organization_work"]]
  }

  lemma GeneralSectionParts(e: Dict)
    ensures GeneralShaped(GeneralSection(e))
    ensures Section(GeneralSection(e), "address") == Project(e, Forms.AddressKeys)
    ensures Section(GeneralSection(e), "phone") == PhoneDict(e)
    ensures Section(GeneralSection(e), "emergency_contact") == Project(e, Forms.EmergencyKeys)
    ensures forall k :: k in Forms.GeneralTopKeys ==> Get(GeneralSection(e), k) == Attr(e, k)
  {
    GeneralApart();
  }

  lemma GeneralApart()
    ensures Forms.GeneralTopKeys !! {"address", "emergency_contact", "phone"}
  {
  }

  /** A general section shaped like an entity's gives back its columns, the phone number among them. */
  lemma GeneralColumnsOf(g: Dict, e: Dict)
    requires GeneralShaped(g)
    requires Section(g, "address") == Project(e, Forms.AddressKeys)
    requires Section(g, "phone") == PhoneDict(e)
    requires Section(g, "emergency_contact") == Project(e, Forms.EmergencyKeys)
    requires forall k :: k in Forms.GeneralTopKeys ==> Get(g, k) == Attr(e, k)
    ensures forall k :: k in Forms.GeneralFlatKeys ==> GeneralColumns(g)[k] == Attr(e, k)
  {
    var address, phone, emergency := Section(g, "address"), Section(g, "phone"), Section(g, "emergency_contact");
    Forms.GeneralFlatPersonal(g, address, phone, emergency);
    Forms.GeneralFlatEmergency(g, address, phone, emergency);
    Forms.GeneralFlatPhoneCodes(g, address, phone, emergency);
    Forms.GeneralFlatNumbers(g, address, phone, emergency);
    forall k | k in Forms.GeneralTopKeys ensures GeneralColumns(g)[k] == Attr(e, k) {
      assert GeneralColumns(g)[k] == Get(g, k);
    }
    forall k | k in Forms.AddressKeys ensures GeneralColumns(g)[k] == Attr(e, k) {
      assert GeneralColumns(g)[k] == Get(address, k);
    }
    forall k | k in Forms.EmergencyKeys ensures GeneralColumns(g)[k] == Attr(e, k) {
      assert GeneralColumns(g)[k] == Get(emergency, k);
    }
    GeneralFlatKeysSplit();
  }

  lemma GeneralFlatKeysSplit()
    ensures forall k :: k in Forms.GeneralFlatKeys ==>
      k in Forms.GeneralTopKeys || k in Forms.AddressKeys || k in Forms.EmergencyKeys || k in {"country_code", "area_code", "phone"}
  {
  }

  /** The serialised general section gives back the general columns. */
  lemma GeneralBack(e: Dict)
    ensures GeneralShaped(GeneralSection(e))
    ensures forall k :: k in Forms.GeneralFlatKeys ==> GeneralColumns(GeneralSection(e))[k] == Attr(e, k)
  {
    GeneralSectionParts(e);
    GeneralColumnsOf(GeneralSection(e), e);
  }

  /** The health section gives back the plain health columns, and the enum columns by name. */
  lemma HealthBack(e: Dict)
    requires OptionalEnum(e, "disability_diagnosis") && OptionalEnum(e, "disability_type")
    ensures var h := Forms.HealthInfoToFlat(HealthSection(e));
      && (forall k :: k in HealthPlain ==> h[k] == Attr(e, k))
      && h["disability_diagnosis"] == NameOrNone(Attr(e, "disability_diagnosis"))
      && h["disability_type"] == NameOrNone(Attr(e, "disability_type"))
  {
    var h := HealthSection(e);
    forall k | k in HealthPlain ensures Forms.HealthInfoToFlat(h)[k] == Attr(e, k) {
      assert Forms.HealthInfoToFlat(h)[k] == Get(h, k);
    }
  }

  /** The school section gives back the grade, the observations and the institution. */
  lemma SchoolBack(e: Dict)
    requires Attr(e, "school_institution").Object?
    ensures DictOrAbsent(SchoolSection(e), "school_institution")
    ensures Section(SchoolSection(e), "school_institution") == Extras.SchoolFromEntity(Attr(e, "school_institution").attrs)
    ensures forall k :: k in SchoolKeys ==> Project(SchoolSection(e), SchoolKeys)[k] == Attr(e, k)
  {
    SchoolInstitutionBack(e);
    SchoolColumnsBack(e);
  }

  lemma SchoolInstitutionBack(e: Dict)
    requires Attr(e, "school_institution").Object?
    ensures DictOrAbsent(SchoolSection(e), "school_institution")
    ensures Section(SchoolSection(e), "school_institution") == Extras.SchoolFromEntity(Attr(e, "school_institution").attrs)
  {
  }

  lemma SchoolColumnsBack(e: Dict)
    requires Attr(e, "school_institution").Object?
    ensures forall k :: k in SchoolKeys ==> Project(SchoolSection(e), SchoolKeys)[k] == Attr(e, k)
  {
    var s := SchoolSection(e);
    assert "current_grade_year" in s && s["current_grade_year"] == Attr(e, "current_grade_year");
    assert "school_observations" in s && s["school_observations"] == Attr(e, "school_observations");
    forall k | k in SchoolKeys ensures Project(s, SchoolKeys)[k] == Attr(e, k) {
      assert k == "current_grade_year" || k == "school_observations";
    }
  }

  /** The family section gives back the family-assignment columns, its type by value. */
  lemma FamilyBack(e: Dict)
    requires OptionalEnum(e, "pension_type") && OptionalEnum(e, "family_assignment_type")
    requires Attr(e, "family_members").List? && MembersReadable(Attr(e, "family_members").items)
    ensures Project(FamilySection(e), FamilyKeys)["has_family_assignment"] == Attr(e, "has_family_assignment")
    ensures Project(FamilySection(e), FamilyKeys)["family_assignment_type"] == ValueOrNone(Attr(e, "family_assignment_type"))
  {
  }

  /** The family section lists the serialised members. */
  lemma FamilyMembersSerialised(e: Dict)
    requires OptionalEnum(e, "pension_type") && OptionalEnum(e, "family_assignment_type")
    requires Attr(e, "family_members").List? && MembersReadable(Attr(e, "family_members").items)
    ensures "family_members" in FamilySection(e)
    ensures FamilySection(e)["family_members"] == List(MemberDicts(Attr(e, "family_members").items))
  {
  }

  /** The work section gives back the scholarship fields and the serialised assignment. */
  lemma WorkBack(e: Dict)
    requires Attr(e, "work_assignment").PyNone?
      || (Attr(e, "work_assignment").Object? && Extras.WorkReadable(Attr(e, "work_assignment").attrs))
    ensures "work_assignments" in WorkSection(e)
    ensures WorkSection(e)["work_assignments"] == Dict(Extras.WorkFromEntity(Attr(e, "work_assignment")))
    ensures forall k :: k in Forms.WorkTopKeys ==> Project(WorkSection(e), Forms.WorkTopKeys)[k] == Attr(e, k)
  {
    assert "work_assignments" !in Forms.WorkTopKeys;
    forall k | k in Forms.WorkTopKeys ensures Project(WorkSection(e), Forms.WorkTopKeys)[k] == Attr(e, k) {
      assert Project(WorkSection(e), Forms.WorkTopKeys)[k] == Get(WorkSection(e), k);
    }
  }

  /** The sections of the renamed serialised jockey, as built from the entity. */
  lemma RenamedSections(e: Dict)
    requires Readable(e)
    ensures var d := Renamed(FromEntity(Object(e)));
      && Section(d, "general_information") == GeneralSection(e)
      && Section(d, "health_information") == HealthSection(e)
      && Section(d, "family_information") == FamilySection(e)
      && Section(d, "school_information") == SchoolSection(e)
      && Section(d, "work_assignment_information") == WorkSection(e)
      && forall k :: k in EntityTopKeys ==> Get(d, k) == Attr(e, k)
  {
    FromEntitySections(e);
    WorkSectionNameUnwritten();
    var s := FromEntity(Object(e));
    var d := Renamed(s);
    forall k | k in EntityTopKeys ensures Get(d, k) == Attr(e, k) {
      assert k in TopKeys;
      assert d[k] == s[k];
    }
  }

  /**
   * Were the work section read under the name `from_entity` writes, a
   * jockey without family members would come back. First its personal
   * columns: the top-level ones, the general ones, the health ones (the
   * enum columns by name).
   */
  lemma RenamedRoundTrip(e: Dict)
    requires Readable(e) && Attr(e, "family_members").items == []
    ensures ToEntityDefined(Renamed(FromEntity(Object(e))))
    ensures var back := ToEntity(Renamed(FromEntity(Object(e))));
      && (forall k :: k in EntityTopKeys ==> back.top[k] == Attr(e, k))
      && (forall k :: k in Forms.GeneralFlatKeys ==> back.general[k] == Attr(e, k))
      && (forall k :: k in HealthPlain ==> back.health[k] == Attr(e, k))
      && back.health["disability_diagnosis"] == NameOrNone(Attr(e, "disability_diagnosis"))
      && back.health["disability_type"] == NameOrNone(Attr(e, "disability_type"))
  {
    var d := Renamed(FromEntity(Object(e)));
    RenamedDefined(e);
    RenamedSections(e);
    GeneralBack(e);
    ToEntityParts(d);
    HealthBack(e);
  }

  lemma RenamedDefined(e: Dict)
    requires Readable(e) && Attr(e, "family_members").items == []
    ensures ToEntityDefined(Renamed(FromEntity(Object(e))))
    ensures MemberEntries(Section(Renamed(FromEntity(Object(e))), "family_information")) == []
  {
    RenamedSections(e);
    GeneralBack(e);
    SchoolBack(e);
    WorkBack(e);
    FamilyMembersSerialised(e);
  }

  /**
   * Then the rest: the school columns and institution, the family
   * assignment (its type by value), the scholarship fields and the work
   * assignment as serialised, and no members.
   */
  lemma RenamedRoundTripRelations(e: Dict)
    requires Readable(e) && Attr(e, "family_members").items == []
    ensures ToEntityDefined(Renamed(FromEntity(Object(e))))
    ensures var back := ToEntity(Renamed(FromEntity(Object(e))));
      && (forall k :: k in SchoolKeys ==> back.school[k] == Attr(e, k))
      && back.family["has_family_assignment"] == Attr(e, "has_family_assignment")
      && back.family["family_assignment_type"] == ValueOrNone(Attr(e, "family_assignment_type"))
      && (forall k :: k in Forms.WorkTopKeys ==> back.work[k] == Attr(e, k))
      && back.institution == Project(Attr(e, "school_institution").attrs, Extras.SchoolColumns + {"id", "name"})
      && back.assignment == Extras.WorkToEntity(Extras.WorkFromEntity(Attr(e, "work_assignment")))
      && back.members == []
  {
    var d := Renamed(FromEntity(Object(e)));
    RenamedDefined(e);
    RenamedSections(e);
    SchoolBack(e);
    WorkBack(e);
    ToEntityParts(d);
    FamilyBack(e);
    Extras.SchoolRoundTrip(Attr(e, "school_institution").attrs);
  }

  /** A serialised member is truthy and carries no `is_optional`: `to_entity` cannot read it. */
  lemma SerialisedMemberUnreadable(m: Dict)
    requires Attr(m, "education_level").Enum?
    ensures !MemberEntryReadable(Dict(Extras.FamilyFromEntity(m)))
  {
    var r := Extras.FamilyFromEntity(m);
    assert "id" in r;
    Extras.NoOptionalFlag();
  }

  /**
   * With family members the renaming is not enough: the serialised members
   * carry no `is_optional`, and `None.lower()` raises.
   */
  lemma SerialisedMembersUnreadable(e: Dict)
    requires Readable(e) && Attr(e, "family_members").items != []
    ensures !ToEntityDefined(Renamed(FromEntity(Object(e))))
  {
    var d := Renamed(FromEntity(Object(e)));
    RenamedSections(e);
    FamilyMembersSerialised(e);
    var ms := Attr(e, "family_members").items;
    SerialisedMemberUnreadable(ms[0].attrs);
    assert MemberDicts(ms)[0] == Dict(Extras.FamilyFromEntity(ms[0].attrs));
    assert !MemberEntryReadable(Section(d, "family_information")["family_members"].items[0]);
  }

  /**
   * Together with the family form's validation: a second member marked
   * filled in ("False", as the page sends it) is passed by the validation
   * without being checked, and the mapper saves it all the same.
   */
  lemma UnvalidatedMemberSaved(first: Value, second: Dict)
    requires MemberEntryReadable(first)
    requires "is_optional" in second && second["is_optional"] == Str("False")
    ensures var v := Forms.ValidateFamily(true, [], second["is_optional"]); v.Ok? && v.value
    ensures Extras.FamilyToEntity(second) in Selected([first, Dict(second)])
  {
    assert AsciiLowerString("False") == "false";
    var ms := [first, Dict(second)];
    assert Filled(ms[1]);
    FilledSelected(ms);
  }
}
