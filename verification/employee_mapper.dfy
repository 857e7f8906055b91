/**
 * The employee mapper: the nested edit form (phone, employment, address and
 * emergency-contact sections) flattened into entity columns, the entity
 * serialised back into that nested shape, and the employee's documents.
 */
module EmployeeMapper {
  import opened PyValues
  import FileMapper

  const TopKeys := {"id", "name", "lastname", "dni", "health_insurance", "affiliate_number", "email", "user_id"}
  /** The employment columns held as enum members. */
  const EnumKeys := {"profession", "position", "job_condition"}
  const EmploymentKeys := EnumKeys + {"start_date", "end_date", "is_active"}
  const AddressKeys := {"street", "number", "department", "locality", "province"}
  const EmergencyKeys := {"emergency_contact_name", "emergency_contact_phone"}
  const PhoneKeys := {"country_code", "area_code"}
  /** The flat form's keys, which are also the columns `to_entity` sets. */
  const FlatKeys := TopKeys + PhoneKeys + {"phone"} + EmploymentKeys + AddressKeys + EmergencyKeys

  /** `from_entity` lists at most this many documents. */
  const NumberOfFiles := 5

  /** Every section `.get` is called on is a dictionary or absent. */
  predicate FormShaped(data: Dict) {
    && DictOrAbsent(data, "phone") && DictOrAbsent(data, "employment_information")
    && DictOrAbsent(data, "address") && DictOrAbsent(data, "emergency_contact")
  }

  /** The phone section's flat keys: its `number` becomes `phone`, apart from the street `number`. */
  function PhonePart(phone: Dict): (r: Dict)
    ensures r.Keys == PhoneKeys + {"phone"}
  {
    map["country_code" := Get(phone, "country_code"), "area_code" := Get(phone, "area_code"),
        "phone" := Get(phone, "number")]
  }

  /** `flat_form(data)`: the nested form as one level of keys. */
  function FlatForm(data: Dict): (r: Dict)
    requires FormShaped(data)
    ensures r.Keys == FlatKeys
  {
    Project(data, TopKeys)
      + Project(Section(data, "employment_information"), EmploymentKeys)
      + Project(Section(data, "address"), AddressKeys)
      + Project(Section(data, "emergency_contact"), EmergencyKeys)
      + PhonePart(Section(data, "phone"))
  }

  /** The sections' keys do not overlap, so no section overwrites another's. */
  lemma KeysDisjoint()
    ensures TopKeys !! EmploymentKeys && TopKeys !! AddressKeys && TopKeys !! EmergencyKeys
    ensures TopKeys !! PhoneKeys + {"phone"}
    ensures EmploymentKeys !! AddressKeys && EmploymentKeys !! EmergencyKeys && EmploymentKeys !! PhoneKeys + {"phone"}
    ensures AddressKeys !! EmergencyKeys && AddressKeys !! PhoneKeys + {"phone"}
    ensures EmergencyKeys !! PhoneKeys + {"phone"}
  {
    TopDisjoint();
    EmploymentDisjoint();
  }

  lemma TopDisjoint()
    ensures TopKeys !! EmploymentKeys && TopKeys !! AddressKeys && TopKeys !! EmergencyKeys
    ensures TopKeys !! PhoneKeys + {"phone"}
  {
  }

  lemma EmploymentDisjoint()
    ensures EmploymentKeys !! AddressKeys && EmploymentKeys !! EmergencyKeys && EmploymentKeys !! PhoneKeys + {"phone"}
  {
  }

  /** The two numbers stay apart: `number` is the street's, `phone` the telephone's. */
  lemma FlatFormNumbers(data: Dict)
    requires FormShaped(data)
    ensures FlatForm(data)["number"] == Get(Section(data, "address"), "number")
    ensures FlatForm(data)["phone"] == Get(Section(data, "phone"), "number")
  {
    KeysDisjoint();
  }

  /** The top-level fields keep their names. */
  lemma FlatFormTop(data: Dict)
    requires FormShaped(data)
    ensures forall k :: k in TopKeys ==> FlatForm(data)[k] == Get(data, k)
  {
    KeysDisjoint();
  }

  /** The employment, address and emergency-contact fields are lifted under their own names. */
  lemma FlatFormSections(data: Dict)
    requires FormShaped(data)
    ensures forall k :: k in EmploymentKeys ==> FlatForm(data)[k] == Get(Section(data, "employment_information"), k)
    ensures forall k :: k in AddressKeys ==> FlatForm(data)[k] == Get(Section(data, "address"), k)
    ensures forall k :: k in EmergencyKeys ==> FlatForm(data)[k] == Get(Section(data, "emergency_contact"), k)
    ensures forall k :: k in PhoneKeys ==> FlatForm(data)[k] == Get(Section(data, "phone"), k)
  {
    FlatEmployment(data);
    FlatAddress(data);
    FlatEmergency(data);
    FlatPhone(data);
  }

  lemma FlatEmployment(data: Dict)
    requires FormShaped(data)
    ensures forall k :: k in EmploymentKeys ==> FlatForm(data)[k] == Get(Section(data, "employment_information"), k)
  {
    KeysDisjoint();
  }

  lemma FlatAddress(data: Dict)
    requires FormShaped(data)
    ensures forall k :: k in AddressKeys ==> FlatForm(data)[k] == Get(Section(data, "address"), k)
  {
    KeysDisjoint();
  }

  lemma FlatEmergency(data: Dict)
    requires FormShaped(data)
    ensures forall k :: k in EmergencyKeys ==> FlatForm(data)[k] == Get(Section(data, "emergency_contact"), k)
  {
    KeysDisjoint();
  }

  lemma FlatPhone(data: Dict)
    requires FormShaped(data)
    ensures forall k :: k in PhoneKeys ==> FlatForm(data)[k] == Get(Section(data, "phone"), k)
  {
    KeysDisjoint();
  }

  /** A missing section leaves each of its keys `None`. */
  lemma FlatFormMissingSections(data: Dict)
    requires FormShaped(data)
    ensures "employment_information" !in data ==> forall k :: k in EmploymentKeys ==> FlatForm(data)[k] == PyNone
    ensures "address" !in data ==> forall k :: k in AddressKeys ==> FlatForm(data)[k] == PyNone
    ensures "emergency_contact" !in data ==> forall k :: k in EmergencyKeys ==> FlatForm(data)[k] == PyNone
    ensures "phone" !in data ==> FlatForm(data)["phone"] == PyNone
    ensures "phone" !in data ==> forall k :: k in PhoneKeys ==> FlatForm(data)[k] == PyNone
  {
    FlatFormNumbers(data);
    FlatFormSections(data);
  }

  /** The keys `flat_form` reads at the top level. */
  const FormReads := TopKeys + {"phone", "employment_information", "address", "emergency_contact"}

  /** The document keys `from_entity` may add are not among them. */
  lemma DocumentKeysUnread()
    ensures "files" !in FormReads && "files_number" !in FormReads
  {
  }

  /** `flat_form` reads nothing but the top-level fields and the four sections. */
  lemma FlatFormIgnoresOthers(data: Dict, k: string, v: Value)
    requires FormShaped(data) && k !in FormReads
    ensures FormShaped(data[k := v])
    ensures FlatForm(data[k := v]) == FlatForm(data)
  {
    var d := data[k := v];
    assert k !in TopKeys && k != "phone" && k != "employment_information" && k != "address" && k != "emergency_contact";
    ProjectOtherKey(data, TopKeys, k, v);
    assert Section(d, "phone") == Section(data, "phone");
    assert Section(d, "employment_information") == Section(data, "employment_information");
    assert Section(d, "address") == Section(data, "address");
    assert Section(d, "emergency_contact") == Section(data, "emergency_contact");
  }

  /** An employee entity: the columns set by its constructor and its document rows. */
  datatype Employee = Employee(columns: Dict, files: seq<Dict>)

  /**
   * `to_entity(data, files)`: the columns read from the nested form, and the
   * documents built by `create_files` when `files` is non-empty.
   */
  function ToEntity(data: Dict, files: FileMapper.Files): (r: Employee)
    requires FormShaped(data) && FileMapper.Readable(files)
    ensures r.columns == FlatForm(data)
    ensures r.files == FileMapper.CreateFiles(files)
  {
    Employee(FlatForm(data), if files != [] then FileMapper.CreateFiles(files) else [])
  }

  /** Attaching documents only when there are some changes nothing: no groups create no files. */
  lemma NoFilesNoDocuments(data: Dict)
    requires FormShaped(data)
    ensures ToEntity(data, []).files == []
  {
  }

  /** The columns an entity needs for `from_entity`: its enum columns are members (`.value` is read). */
  predicate Serialisable(e: Dict, files: seq<Value>) {
    && (forall k :: k in EnumKeys ==> Attr(e, k).Enum?)
    && (forall i :: 0 <= i < |files| ==> files[i].PyNone? || files[i].Object?)
  }

  /** An enum column by its value, the way `from_entity` renders it. */
  function ByValue(e: Dict, k: string): Value
    requires Attr(e, k).Enum?
  {
    Str(Attr(e, k).member.value)
  }

  const SerialisedKeys := TopKeys + {"phone", "employment_information", "address", "emergency_contact",
                                     "inserted_at", "updated_at", "is_deleted"}

  function PhoneSection(e: Dict): Dict {
    map["country_code" := Attr(e, "country_code"), "area_code" := Attr(e, "area_code"), "number" := Attr(e, "phone")]
  }

  function EmploymentSection(e: Dict): Dict
    requires forall k :: k in EnumKeys ==> Attr(e, k).Enum?
  {
    map["profession" := ByValue(e, "profession"), "position" := ByValue(e, "position"),
        "job_condition" := ByValue(e, "job_condition"), "start_date" := Attr(e, "start_date"),
        "end_date" := Attr(e, "end_date"), "is_active" := Attr(e, "is_active")]
  }

  /** The serialised entity without its documents. */
  function Serialised(e: Dict): (r: Dict)
    requires forall k :: k in EnumKeys ==> Attr(e, k).Enum?
    ensures r.Keys == SerialisedKeys
  {
    Project(e, TopKeys + {"inserted_at", "updated_at", "is_deleted"})
      + map["phone" := Dict(PhoneSection(e)), "employment_information" := Dict(EmploymentSection(e)),
            "address" := Dict(Project(e, AddressKeys)), "emergency_contact" := Dict(Project(e, EmergencyKeys))]
  }

  /**
   * `from_entity(employee, documents)`: the nested shape the form uses, the
   * enum columns by value, and with `documents` the first five files and the
   * count of all of them.
   */
  function FromEntity(e: Dict, files: seq<Value>, documents: bool): (r: Dict)
    requires Serialisable(e, files)
    ensures r.Keys == SerialisedKeys + (if documents then {"files", "files_number"} else {})
    ensures documents ==> && r["files_number"] == Int(|files|) && r["files"].List?
                          && |r["files"].items| <= NumberOfFiles
    ensures documents && (forall i :: 0 <= i < |files| ==> files[i].Object?) ==>
      r["files"].items == FileMapper.Listed(files[..if |files| < NumberOfFiles then |files| else NumberOfFiles])
  {
    var base := Serialised(e);
    if documents then
      var shown := files[..if |files| < NumberOfFiles then |files| else NumberOfFiles];
      base["files" := List(FileMapper.Listed(shown))]["files_number" := Int(|files|)]
    else base
  }

  /** With more than five documents, five are listed and the count still reports all of them. */
  lemma FilesTruncatedToFive(e: Dict, files: seq<Value>)
    requires Serialisable(e, files) && |files| >= NumberOfFiles
    requires forall i :: 0 <= i < |files| ==> files[i].Object?
    ensures |FromEntity(e, files, true)["files"].items| == NumberOfFiles
    ensures FromEntity(e, files, true)["files_number"] == Int(|files|)
  {
    FirstFilesListed(files);
  }

  lemma FirstFilesListed(files: seq<Value>)
    requires |files| >= NumberOfFiles
    requires forall i :: 0 <= i < |files| ==> files[i].Object?
    ensures |FileMapper.Listed(files[..NumberOfFiles])| == NumberOfFiles
  {
    var shown := files[..NumberOfFiles];
    assert forall i :: 0 <= i < |shown| ==> shown[i] == files[i];
  }

  /** The serialised entity has the shape `flat_form` reads, each section as `from_entity` builds it. */
  lemma SerialisedSections(e: Dict)
    requires forall k :: k in EnumKeys ==> Attr(e, k).Enum?
    ensures FormShaped(Serialised(e))
    ensures Section(Serialised(e), "phone") == PhoneSection(e)
    ensures Section(Serialised(e), "employment_information") == EmploymentSection(e)
    ensures Section(Serialised(e), "address") == Project(e, AddressKeys)
    ensures Section(Serialised(e), "emergency_contact") == Project(e, EmergencyKeys)
    ensures forall k :: k in TopKeys ==> Serialised(e)[k] == Attr(e, k)
  {
    SectionNamesDisjoint();
  }

  lemma SectionNamesDisjoint()
    ensures TopKeys + {"inserted_at", "updated_at", "is_deleted"} !! {"phone", "employment_information", "address", "emergency_contact"}
  {
  }

  /** Flattening the serialised entity gives back its top-level columns. */
  lemma SerialisedFlatTop(e: Dict)
    requires forall k :: k in EnumKeys ==> Attr(e, k).Enum?
    ensures FormShaped(Serialised(e))
    ensures forall k :: k in TopKeys ==> FlatForm(Serialised(e))[k] == Attr(e, k)
  {
    SerialisedSections(e);
    FlatFormTop(Serialised(e));
  }

  lemma EmploymentSectionValues(e: Dict)
    requires forall k :: k in EnumKeys ==> Attr(e, k).Enum?
    ensures forall k :: k in EnumKeys ==> Get(EmploymentSection(e), k) == ByValue(e, k)
    ensures forall k :: k in EmploymentKeys - EnumKeys ==> Get(EmploymentSection(e), k) == Attr(e, k)
  {
  }

  /** A form whose employment section is an entity's gives back its employment columns, enums by value. */
  lemma FlatEmploymentOf(d: Dict, e: Dict)
    requires forall k :: k in EnumKeys ==> Attr(e, k).Enum?
    requires FormShaped(d) && Section(d, "employment_information") == EmploymentSection(e)
    ensures forall k :: k in EnumKeys ==> FlatForm(d)[k] == ByValue(e, k)
    ensures forall k :: k in EmploymentKeys - EnumKeys ==> FlatForm(d)[k] == Attr(e, k)
  {
    FlatFormSections(d);
    EmploymentSectionValues(e);
    forall k | k in EnumKeys ensures FlatForm(d)[k] == ByValue(e, k) {
      assert k in EmploymentKeys;
      assert FlatForm(d)[k] == Get(Section(d, "employment_information"), k);
    }
    forall k | k in EmploymentKeys - EnumKeys ensures FlatForm(d)[k] == Attr(e, k) {
      assert FlatForm(d)[k] == Get(Section(d, "employment_information"), k);
    }
  }

  lemma ContactSectionValues(e: Dict)
    ensures forall k :: k in PhoneKeys ==> Get(PhoneSection(e), k) == Attr(e, k)
    ensures Get(PhoneSection(e), "number") == Attr(e, "phone")
    ensures forall k :: k in AddressKeys ==> Get(Project(e, AddressKeys), k) == Attr(e, k)
    ensures forall k :: k in EmergencyKeys ==> Get(Project(e, EmergencyKeys), k) == Attr(e, k)
  {
  }

  /** A form whose contact sections are an entity's gives back its address, emergency-contact and phone columns. */
  lemma FlatContactOf(d: Dict, e: Dict)
    requires FormShaped(d) && Section(d, "phone") == PhoneSection(e)
    requires Section(d, "address") == Project(e, AddressKeys)
    requires Section(d, "emergency_contact") == Project(e, EmergencyKeys)
    ensures forall k :: k in AddressKeys + EmergencyKeys + PhoneKeys + {"phone"} ==> FlatForm(d)[k] == Attr(e, k)
  {
    FlatFormSections(d);
    FlatFormNumbers(d);
    ContactFromSections(FlatForm(d), e);
  }

  /** The contact columns of any flat dictionary whose sections were read from `e`. */
  lemma {:induction false} ContactFromSections(f: Dict, e: Dict)
    requires forall k :: k in AddressKeys ==> k in f && f[k] == Get(Project(e, AddressKeys), k)
    requires forall k :: k in EmergencyKeys ==> k in f && f[k] == Get(Project(e, EmergencyKeys), k)
    requires forall k :: k in PhoneKeys ==> k in f && f[k] == Get(PhoneSection(e), k)
    requires "phone" in f && f["phone"] == Get(PhoneSection(e), "number")
    ensures forall k :: k in AddressKeys + EmergencyKeys + PhoneKeys + {"phone"} ==> f[k] == Attr(e, k)
  {
    ContactSectionValues(e);
  }

  /** The documents `from_entity` adds are invisible to `flat_form`. */
  lemma FlatFormIgnoresDocuments(s: Dict, listed: Value, count: Value)
    requires FormShaped(s)
    ensures FormShaped(s["files" := listed]["files_number" := count])
    ensures FlatForm(s["files" := listed]["files_number" := count]) == FlatForm(s)
  {
    DocumentKeysUnread();
    FlatFormIgnoresOthers(s, "files", listed);
    FlatFormIgnoresOthers(s["files" := listed], "files_number", count);
  }

  lemma FromEntityFlat(e: Dict, files: seq<Value>, documents: bool)
    requires Serialisable(e, files)
    ensures FormShaped(Serialised(e)) && FormShaped(FromEntity(e, files, documents))
    ensures FlatForm(FromEntity(e, files, documents)) == FlatForm(Serialised(e))
  {
    SerialisedSections(e);
    var shown := files[..if |files| < NumberOfFiles then |files| else NumberOfFiles];
    FlatFormOfDocumented(Serialised(e), FromEntity(e, files, documents), documents, List(FileMapper.Listed(shown)), Int(|files|));
  }

  lemma FlatFormOfDocumented(s: Dict, r: Dict, documents: bool, listed: Value, count: Value)
    requires FormShaped(s)
    requires r == if documents then s["files" := listed]["files_number" := count] else s
    ensures FormShaped(r) && FlatForm(r) == FlatForm(s)
  {
    if documents {
      FlatFormIgnoresDocuments(s, listed, count);
    }
  }

  /**
   * Serialising an employee and building an entity from the result gives
   * back every column `to_entity` sets, the enum columns as their values,
   * and no documents; the serialised documents are not read back.
   */
  lemma EntityRoundTrip(e: Dict, files: seq<Value>, documents: bool)
    requires Serialisable(e, files)
    ensures FormShaped(FromEntity(e, files, documents))
    ensures var back := ToEntity(FromEntity(e, files, documents), []);
      && back.columns.Keys == FlatKeys
      && (forall k :: k in TopKeys ==> back.columns[k] == Attr(e, k))
      && (forall k :: k in AddressKeys + EmergencyKeys + PhoneKeys + {"phone"} ==> back.columns[k] == Attr(e, k))
      && (forall k :: k in EmploymentKeys - EnumKeys ==> back.columns[k] == Attr(e, k))
      && (forall k :: k in EnumKeys ==> back.columns[k] == Str(Attr(e, k).member.value))
      && back.files == []
  {
    var s := Serialised(e);
    FromEntityFlat(e, files, documents);
    var back := ToEntity(FromEntity(e, files, documents), []);
    assert back.columns == FlatForm(s);
    SerialisedFlatTop(e);
    SerialisedSections(e);
    FlatEmploymentOf(s, e);
    FlatContactOf(s, e);
  }
}
