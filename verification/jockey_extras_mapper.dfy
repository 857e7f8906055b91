/**
 * The mappers of a jockey's nested records: family members, the work
 * assignment and the school institution, each between its entity (the
 * attributes of its ORM object) and the dictionary the views use.
 */
module JockeyExtrasMapper {
  import opened PyValues

  // Family members

  const MemberPersonal := {"relationship", "first_name", "last_name", "dni", "email", "occupation"}
  const MemberAddress := {"street", "number", "department", "locality", "province"}
  const MemberPhone := {"phone_country_code", "phone_area_code", "phone_number"}
  /** The member's plain columns: everything but its id and its education level. */
  const MemberFields := MemberPersonal + MemberAddress + MemberPhone
  /** The columns `to_entity` sets. */
  const MemberColumns := MemberFields + {"education_level"}

  lemma MemberKeysApart()
    ensures "id" !in MemberFields && "education_level" !in MemberFields
  {
  }

  lemma NoOptionalFlag()
    ensures "is_optional" !in MemberFields + {"id", "education_level"}
  {
  }

  /** `FamilyMemberMapper.from_entity`: the id and plain columns as stored, the education level by name. */
  function FamilyFromEntity(m: Dict): (r: Dict)
    requires Attr(m, "education_level").Enum?
    ensures r.Keys == MemberFields + {"id", "education_level"}
    ensures r["education_level"] == Str(Attr(m, "education_level").member.name)
    ensures forall k :: k in MemberFields + {"id"} ==> r[k] == Attr(m, k)
  {
    MemberKeysApart();
    Project(m, MemberFields + {"id"})["education_level" := Str(Attr(m, "education_level").member.name)]
  }

  /** `FamilyMemberMapper.to_entity`: the constructor arguments, each read with `.get`; never an id. */
  function FamilyToEntity(data: Dict): (r: Dict)
    ensures r.Keys == MemberColumns
    ensures "id" !in r
    ensures forall k :: k in MemberColumns ==> r[k] == Get(data, k)
  {
    MemberKeysApart();
    Project(data, MemberColumns)
  }

  /**
   * Serialising a member and building a new one from the result keeps every
   * column but the id, which is dropped, and the education level, which
   * comes back as its name.
   */
  lemma {:induction false} FamilyRoundTrip(m: Dict)
    requires Attr(m, "education_level").Enum?
    ensures FamilyToEntity(FamilyFromEntity(m)) == Project(m, MemberFields)["education_level" := Str(Attr(m, "education_level").member.name)]
  {
    MemberKeysApart();
    var back := FamilyToEntity(FamilyFromEntity(m));
    var expected := Project(m, MemberFields)["education_level" := Str(Attr(m, "education_level").member.name)];
    assert back.Keys == expected.Keys;
    forall k | k in back.Keys ensures back[k] == expected[k] {
      assert back[k] == Get(FamilyFromEntity(m), k);
    }
  }

  // The work assignment

  /** The assignment's id and the ids of the employees and horse it names. */
  const WorkIds := {"id", "professor_or_therapist_id", "conductor_id", "track_assistant_id", "horse_id"}
  /** Its columns held as enum members, rendered by name. */
  const WorkEnumKeys := {"proposal", "condition", "sede"}
  /** Every key `from_entity` writes and `to_entity` reads. */
  const WorkKeys := WorkIds + WorkEnumKeys + {"days"}

  lemma WorkKeysApart()
    ensures WorkIds !! WorkEnumKeys && "days" !in WorkIds + WorkEnumKeys
  {
  }

  /** An assignment `from_entity` can read: enum columns that are members and a list of day members. */
  predicate WorkReadable(a: Dict) {
    && Attr(a, "proposal").Enum? && Attr(a, "condition").Enum? && Attr(a, "sede").Enum?
    && Attr(a, "days").List?
    && forall i :: 0 <= i < |Attr(a, "days").items| ==> Attr(a, "days").items[i].Enum?
  }

  /** `[day.value for day in days]`. */
  function DayValues(days: seq<Value>): (r: seq<Value>)
    requires forall i :: 0 <= i < |days| ==> days[i].Enum?
    ensures |r| == |days|
  {
    seq(|days|, i requires 0 <= i < |days| => Str(days[i].member.value))
  }

  /** The enum columns by name and the days by value, beside the ids. */
  function AssignmentDict(a: Dict): (r: Dict)
    requires WorkReadable(a)
    ensures r.Keys == WorkKeys
  {
    Project(a, WorkIds)
      + map["proposal" := Str(Attr(a, "proposal").member.name), "condition" := Str(Attr(a, "condition").member.name),
            "sede" := Str(Attr(a, "sede").member.name), "days" := List(DayValues(Attr(a, "days").items))]
  }

  /**
   * `WorkAssignmentMapper.from_entity`: no assignment (`None`) gives an
   * empty dictionary; an assignment gives its ids as stored, proposal,
   * condition and sede by name, and its days by value, in order.
   */
  function WorkFromEntity(a: Value): (r: Dict)
    requires a.PyNone? || (a.Object? && WorkReadable(a.attrs))
    ensures !Truthy(a) ==> r == map[]
    ensures a.Object? ==> r.Keys == WorkKeys
    ensures a.Object? ==> forall k :: k in WorkIds ==> r[k] == Attr(a.attrs, k)
    ensures a.Object? ==> forall k :: k in WorkEnumKeys ==> r[k] == Str(Attr(a.attrs, k).member.name)
    ensures a.Object? ==> (&& r["days"].List? && |r["days"].items| == |Attr(a.attrs, "days").items|
                           && forall i :: 0 <= i < |r["days"].items| ==>
                                r["days"].items[i] == Str(Attr(a.attrs, "days").items[i].member.value))
  {
    WorkKeysApart();
    if !Truthy(a) then map[] else AssignmentDict(a.attrs)
  }

  /** `WorkAssignmentMapper.to_entity`: the constructor arguments, each read with `.get`, the id included. */
  function WorkToEntity(data: Dict): (r: Dict)
    ensures r.Keys == WorkKeys
    ensures forall k :: k in WorkKeys ==> r[k] == Get(data, k)
  {
    Project(data, WorkKeys)
  }

  /**
   * The serialised assignment holds exactly the keys `to_entity` reads: an
   * assignment built from it has the serialised values, the id among them.
   */
  lemma WorkRoundTrip(a: Value)
    requires a.Object? && WorkReadable(a.attrs)
    ensures WorkToEntity(WorkFromEntity(a)) == WorkFromEntity(a)
  {
    var s := WorkFromEntity(a);
    ProjectOwnKeys(s, WorkKeys);
  }

  /** An empty assignment dictionary builds an assignment with every column `None`. */
  lemma WorkFromNothing()
    ensures forall k :: k in WorkKeys ==> WorkToEntity(WorkFromEntity(PyNone))[k] == PyNone
  {
  }

  // The school institution

  const SchoolColumns := {"street", "number", "department", "locality", "province",
                          "phone_country_code", "phone_area_code", "phone_number"}

  lemma SchoolKeysApart()
    ensures "name" !in SchoolColumns + {"id"} && "school_name" !in SchoolColumns + {"id"}
  {
  }

  /** `SchoolInstitutionMapper.from_entity`: every column as stored, the `name` under `school_name`. */
  function SchoolFromEntity(i: Dict): (r: Dict)
    ensures r.Keys == SchoolColumns + {"id", "school_name"}
    ensures r["school_name"] == Attr(i, "name")
    ensures forall k :: k in SchoolColumns + {"id"} ==> r[k] == Attr(i, k)
  {
    SchoolKeysApart();
    Project(i, SchoolColumns + {"id"})["school_name" := Attr(i, "name")]
  }

  /** `SchoolInstitutionMapper.to_entity`: the `school_name` key becomes the `name` column. */
  function SchoolToEntity(data: Dict): (r: Dict)
    ensures r.Keys == SchoolColumns + {"id", "name"}
    ensures r["name"] == Get(data, "school_name")
    ensures forall k :: k in SchoolColumns + {"id"} ==> r[k] == Get(data, k)
  {
    SchoolKeysApart();
    Project(data, SchoolColumns + {"id"})["name" := Get(data, "school_name")]
  }

  /** The two renamings undo each other: an institution survives serialisation column for column. */
  lemma {:induction false} SchoolRoundTrip(i: Dict)
    ensures SchoolToEntity(SchoolFromEntity(i)) == Project(i, SchoolColumns + {"id", "name"})
  {
    SchoolKeysApart();
    var back := SchoolToEntity(SchoolFromEntity(i));
    var expected := Project(i, SchoolColumns + {"id", "name"});
    forall k | k in back.Keys ensures back[k] == expected[k] {
      if k != "name" {
        assert back[k] == Get(SchoolFromEntity(i), k);
      }
    }
  }

  /** And the other way: a school dictionary survives being built into an entity and serialised. */
  lemma {:induction false} SchoolDictRoundTrip(d: Dict)
    ensures SchoolFromEntity(SchoolToEntity(d)) == Project(d, SchoolColumns + {"id", "school_name"})
  {
    SchoolKeysApart();
    var back := SchoolFromEntity(SchoolToEntity(d));
    var expected := Project(d, SchoolColumns + {"id", "school_name"});
    forall k | k in back.Keys ensures back[k] == expected[k] {
      if k != "school_name" {
        assert back[k] == Attr(SchoolToEntity(d), k);
      }
    }
  }
}
