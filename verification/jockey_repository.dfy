/**
 * The jockey/amazon repository as transitions of a store of records keyed
 * by id. Each operation returns whether it reported success together with
 * the store after it; a failed operation leaves the store as it was.
 */
module JockeyRepository {
  import opened Wrappers
  import opened PyValues
  import Queries
  import StorageServices

  /** The employee and horse slots of a work assignment. */
  datatype WorkAssignment = WorkAssignment(
    professorOrTherapistId: Option<int>,
    trackAssistantId: Option<int>,
    conductorId: Option<int>,
    horseId: Option<int>)

  datatype Slot = ProfessorOrTherapist | TrackAssistant | Conductor | HorseSlot

  /**
   * A jockey/amazon as far as the repository's transitions read it. The
   * school institution is its attribute dictionary (absent when there is
   * none); the work assignment may be missing.
   */
  datatype JockeyAmazon = JockeyAmazon(
    dni: string,
    hasDebts: bool,
    isDeleted: bool,
    school: Option<Dict>,
    currentGradeYear: Value,
    schoolObservations: Value,
    workAssignment: Option<WorkAssignment>)

  type Store = map<int, JockeyAmazon>

  /** The attributes `hasattr` finds on a school institution: its columns and its back-reference. */
  const SchoolAttributes: set<string> := {
    "id", "name", "street", "number", "department", "locality", "province",
    "phone_country_code", "phone_area_code", "phone_number", "jockey_amazon_id", "jockey_amazon"}

  function SlotValue(w: WorkAssignment, slot: Slot): Option<int> {
    match slot
    case ProfessorOrTherapist => w.professorOrTherapistId
    case TrackAssistant => w.trackAssistantId
    case Conductor => w.conductorId
    case HorseSlot => w.horseId
  }

  /** The assignment with one slot set to `v` and every other slot as it was. */
  function WithSlot(w: WorkAssignment, slot: Slot, v: Option<int>): (r: WorkAssignment)
    ensures SlotValue(r, slot) == v
    ensures forall other :: other != slot ==> SlotValue(r, other) == SlotValue(w, other)
  {
    match slot
    case ProfessorOrTherapist => w.(professorOrTherapistId := v)
    case TrackAssistant => w.(trackAssistantId := v)
    case Conductor => w.(conductorId := v)
    case HorseSlot => w.(horseId := v)
  }

  /** The slot `assign_employee` fills for a job position name; `None` for positions it refuses. */
  function EmployeeSlot(position: string): (r: Option<Slot>)
    ensures r.Some? ==> r.value != HorseSlot
  {
    if position == "PROFESOR_EQUITACION" || position == "TERAPEUTA" then Some(ProfessorOrTherapist)
    else if position == "AUXILIAR_PISTA" then Some(TrackAssistant)
    else if position == "CONDUCTOR" then Some(Conductor)
    else None
  }

  /** The slot `unassign_employee` clears: the same dispatch, plus `"Horse"`. */
  function UnlinkSlot(linkTo: string): (r: Option<Slot>)
    ensures r == Some(HorseSlot) <==> linkTo == "Horse"
    ensures linkTo != "Horse" ==> r == EmployeeSlot(linkTo)
  {
    if EmployeeSlot(linkTo).Some? then EmployeeSlot(linkTo)
    else if linkTo == "Horse" then Some(HorseSlot)
    else None
  }

  /** Every record but `id` is untouched and no record appears or disappears. */
  predicate OthersUnchanged(s: Store, s': Store, id: int) {
    s'.Keys == s.Keys && forall k :: k in s && k != id ==> s'[k] == s[k]
  }

  /** Which jockeys can receive a slot write: a present jockey must have a work assignment. */
  predicate HasAssignment(s: Store, id: int) {
    id in s ==> s[id].workAssignment.Some?
  }

  /** The store after writing `v` into one slot of jockey `id`'s work assignment. */
  function SetSlot(s: Store, id: int, slot: Slot, v: Option<int>): (s': Store)
    requires id in s && s[id].workAssignment.Some?
    ensures OthersUnchanged(s, s', id)
    ensures s'[id].workAssignment.Some? && SlotValue(s'[id].workAssignment.value, slot) == v
    ensures forall other :: other != slot ==>
      SlotValue(s'[id].workAssignment.value, other) == SlotValue(s[id].workAssignment.value, other)
    ensures s'[id].(workAssignment := s[id].workAssignment) == s[id]
  {
    s[id := s[id].(workAssignment := Some(WithSlot(s[id].workAssignment.value, slot, v)))]
  }

  /** `get_by_id`: the record, or `None`. */
  function GetById(s: Store, id: int): (r: Option<JockeyAmazon>)
    ensures r.Some? <==> id in s
    ensures r.Some? ==> r.value == s[id]
  {
    if id in s then Some(s[id]) else None
  }

  /** `archive`: refused for a missing or already deleted jockey; otherwise marks it deleted. */
  function Archive(s: Store, id: int): (r: (bool, Store))
    ensures r.0 <==> id in s && !s[id].isDeleted
    ensures !r.0 ==> r.1 == s
    ensures r.0 ==> OthersUnchanged(s, r.1, id) && r.1[id].isDeleted && r.1[id].(isDeleted := false) == s[id]
  {
    if id !in s || s[id].isDeleted then (false, s)
    else (true, s[id := s[id].(isDeleted := true)])
  }

  /** `recover`: refused unless the jockey is deleted; otherwise clears the flag. */
  function Recover(s: Store, id: int): (r: (bool, Store))
    ensures r.0 <==> id in s && s[id].isDeleted
    ensures !r.0 ==> r.1 == s
    ensures r.0 ==> OthersUnchanged(s, r.1, id) && !r.1[id].isDeleted && r.1[id].(isDeleted := true) == s[id]
  {
    if id !in s || !s[id].isDeleted then (false, s)
    else (true, s[id := s[id].(isDeleted := false)])
  }

  /** Recovering an archived jockey restores the store exactly. */
  lemma RecoverUndoesArchive(s: Store, id: int)
    requires Archive(s, id).0
    ensures Recover(Archive(s, id).1, id) == (true, s)
  {
    var s1 := Archive(s, id).1;
    assert s1[id := s1[id].(isDeleted := false)] == s;
  }

  /** Archiving twice: the second call is refused. */
  lemma ArchiveTwiceRefused(s: Store, id: int)
    ensures !Archive(Archive(s, id).1, id).0
  {
  }

  /** `toggle_debtor_status`: flips `has_debts` of a present jockey. */
  function ToggleDebtorStatus(s: Store, id: int): (r: (bool, Store))
    ensures r.0 <==> id in s
    ensures !r.0 ==> r.1 == s
    ensures r.0 ==> OthersUnchanged(s, r.1, id) && r.1[id].hasDebts == !s[id].hasDebts
                    && r.1[id].(hasDebts := s[id].hasDebts) == s[id]
  {
    if id !in s then (false, s)
    else (true, s[id := s[id].(hasDebts := !s[id].hasDebts)])
  }

  /** Toggling twice is the identity. */
  lemma ToggleDebtorTwice(s: Store, id: int)
    ensures ToggleDebtorStatus(ToggleDebtorStatus(s, id).1, id).1 == s
  {
    if id in s {
      var s1 := ToggleDebtorStatus(s, id).1;
      assert s1[id := s1[id].(hasDebts := !s1[id].hasDebts)] == s;
    }
  }

  /**
   * `assign_employee`: a missing jockey or an unknown position is refused;
   * otherwise the position's slot receives the employee. Writing the slot
   * of a jockey without work assignment raises, hence the precondition.
   */
  function AssignEmployee(s: Store, id: int, employeeId: int, position: string): (r: (bool, Store))
    requires EmployeeSlot(position).Some? ==> HasAssignment(s, id)
    ensures r.0 <==> id in s && EmployeeSlot(position).Some?
    ensures !r.0 ==> r.1 == s
    ensures r.0 ==> r.1 == SetSlot(s, id, EmployeeSlot(position).value, Some(employeeId))
  {
    if id !in s then (false, s)
    else
      match EmployeeSlot(position)
      case None => (false, s)
      case Some(slot) => (true, SetSlot(s, id, slot, Some(employeeId)))
  }

  /** `unassign_employee`: the same dispatch, clearing the slot; `"Horse"` clears the horse. */
  function UnassignEmployee(s: Store, id: int, linkTo: string): (r: (bool, Store))
    requires UnlinkSlot(linkTo).Some? ==> HasAssignment(s, id)
    ensures r.0 <==> id in s && UnlinkSlot(linkTo).Some?
    ensures !r.0 ==> r.1 == s
    ensures r.0 ==> r.1 == SetSlot(s, id, UnlinkSlot(linkTo).value, None)
  {
    if id !in s then (false, s)
    else
      match UnlinkSlot(linkTo)
      case None => (false, s)
      case Some(slot) => (true, SetSlot(s, id, slot, None))
  }

  /** `assign_horse`: sets the horse slot of a present jockey. */
  function AssignHorse(s: Store, id: int, horseId: int): (r: (bool, Store))
    requires HasAssignment(s, id)
    ensures r.0 <==> id in s
    ensures !r.0 ==> r.1 == s
    ensures r.0 ==> r.1 == SetSlot(s, id, HorseSlot, Some(horseId))
  {
    if id !in s then (false, s) else (true, SetSlot(s, id, HorseSlot, Some(horseId)))
  }

  /** `unassign_horse`: clears the horse slot of a present jockey. */
  function UnassignHorse(s: Store, id: int): (r: (bool, Store))
    requires HasAssignment(s, id)
    ensures r.0 <==> id in s
    ensures !r.0 ==> r.1 == s
    ensures r.0 ==> r.1 == SetSlot(s, id, HorseSlot, None)
  {
    if id !in s then (false, s) else (true, SetSlot(s, id, HorseSlot, None))
  }

  /** The position dispatch: which slot each accepted position writes, and that nothing else is accepted. */
  lemma AssignEmployeeDispatch(s: Store, id: int, employeeId: int, position: string)
    requires id in s && s[id].workAssignment.Some?
    ensures var r := AssignEmployee(s, id, employeeId, position);
      var w := r.1[id].workAssignment.value;
      && (position == "PROFESOR_EQUITACION" || position == "TERAPEUTA" ==>
            r.0 && w.professorOrTherapistId == Some(employeeId))
      && (position == "AUXILIAR_PISTA" ==> r.0 && w.trackAssistantId == Some(employeeId))
      && (position == "CONDUCTOR" ==> r.0 && w.conductorId == Some(employeeId))
      && (r.0 ==> w.horseId == s[id].workAssignment.value.horseId)
      && (position !in {"PROFESOR_EQUITACION", "TERAPEUTA", "AUXILIAR_PISTA", "CONDUCTOR"} ==> !r.0)
  {
  }

  /** Unassigning the position just assigned empties that slot and leaves the others as before the assignment. */
  lemma UnassignAfterAssign(s: Store, id: int, employeeId: int, position: string)
    requires EmployeeSlot(position).Some? && id in s && s[id].workAssignment.Some?
    ensures var s1 := AssignEmployee(s, id, employeeId, position).1;
      var r := UnassignEmployee(s1, id, position);
      r.0 && r.1 == SetSlot(s, id, EmployeeSlot(position).value, None)
  {
    var slot := EmployeeSlot(position).value;
    var s1 := SetSlot(s, id, slot, Some(employeeId));
    var s2 := SetSlot(s1, id, slot, None);
    var w0 := s[id].workAssignment.value;
    assert s2[id].workAssignment.value == WithSlot(w0, slot, None) by {
      var a := s2[id].workAssignment.value;
      var b := WithSlot(w0, slot, None);
      assert forall t :: SlotValue(a, t) == SlotValue(b, t);
      assert SlotValue(a, ProfessorOrTherapist) == SlotValue(b, ProfessorOrTherapist);
      assert SlotValue(a, TrackAssistant) == SlotValue(b, TrackAssistant);
      assert SlotValue(a, Conductor) == SlotValue(b, Conductor);
      assert SlotValue(a, HorseSlot) == SlotValue(b, HorseSlot);
    }
    assert s2 == SetSlot(s, id, slot, None);
  }

  /** `is_dni_used`: some jockey, deleted or not, has this DNI. */
  function IsDniUsed(s: Store, dni: string): (r: bool)
    ensures r <==> exists id :: id in s && s[id].dni == dni
  {
    var dnis := set id | id in s :: s[id].dni;
    dni in dnis
  }

  /** `update_school_information`'s request: the school section and the two optional keys. */
  function SchoolSection(data: Dict): Dict
    requires DictOrAbsent(data, "school_institution")
  {
    Section(data, "school_institution")
  }

  /** The school after copying every key of `section` that is an attribute of a school. */
  function CopyAttributes(school: Dict, section: Dict): (r: Dict)
    ensures forall k :: k in section && k in SchoolAttributes ==> k in r && r[k] == section[k]
    ensures forall k :: k !in section || k !in SchoolAttributes ==> (k in r <==> k in school) && (k in school ==> r[k] == school[k])
  {
    map k | k in school.Keys + (section.Keys * SchoolAttributes) ::
      if k in section && k in SchoolAttributes then section[k] else school[k]
  }

  /**
   * `update_school_information(id, data)`: a missing jockey is refused. The
   * school takes the known attributes of `data["school_institution"]` (a
   * jockey without school takes nothing, `hasattr(None, k)` being false),
   * and the grade and observations change only when their key is present.
   */
  function UpdateSchoolInformation(s: Store, id: int, data: Dict): (r: (bool, Store))
    requires DictOrAbsent(data, "school_institution")
    ensures r.0 <==> id in s
    ensures !r.0 ==> r.1 == s
    ensures r.0 ==> OthersUnchanged(s, r.1, id)
    ensures r.0 ==> var j, j' := s[id], r.1[id];
      && j'.currentGradeYear == GetOr(data, "current_grade_year", j.currentGradeYear)
      && j'.schoolObservations == GetOr(data, "school_observations", j.schoolObservations)
      && j'.school.Some? == j.school.Some?
      && j'.(school := j.school, currentGradeYear := j.currentGradeYear, schoolObservations := j.schoolObservations) == j
  {
    if id !in s then (false, s)
    else
      var j := s[id];
      var school := match j.school
        case None => None
        case Some(attrs) => Some(CopyAttributes(attrs, SchoolSection(data)));
      (true, s[id := j.(school := school,
                        currentGradeYear := GetOr(data, "current_grade_year", j.currentGradeYear),
                        schoolObservations := GetOr(data, "school_observations", j.schoolObservations))])
  }

  /** Keys absent from the request leave the grade, the observations and the unnamed school attributes alone. */
  lemma UpdateSchoolKeepsAbsent(s: Store, id: int, data: Dict, attr: string)
    requires DictOrAbsent(data, "school_institution") && id in s && s[id].school.Some?
    requires "current_grade_year" !in data && "school_observations" !in data
    requires attr !in SchoolSection(data) || attr !in SchoolAttributes
    ensures var j' := UpdateSchoolInformation(s, id, data).1[id];
      && j'.currentGradeYear == s[id].currentGradeYear
      && j'.schoolObservations == s[id].schoolObservations
      && (attr in j'.school.value <==> attr in s[id].school.value)
      && (attr in s[id].school.value ==> j'.school.value[attr] == s[id].school.value[attr])
  {
  }

  /** The file model's columns that `apply_filters` can filter or sort on. */
  const FileModel := Queries.Model({
    "id", "title", "path", "is_link", "tag", "filetype", "filesize", "inserted_at",
    "deleted", "deleted_at", "owner_type", "jockey_amazon_id", "owner"})

  /**
   * `get_file_page`: the page of a jockey's documents. The jockey's id is
   * forced into the filters, then `apply_filters` runs: every document
   * listed belongs to the jockey, whatever the caller's filters said.
   */
  function GetFilePage(files: seq<Queries.Row>, id: int, search: Queries.SearchQuery,
                       orderBy: seq<(string, string)>): (r: Queries.Query)
    ensures forall x :: x in r.rows ==> x in files && Attr(x, "jockey_amazon_id") == Int(id)
    ensures r.order == Queries.OrderKeys(FileModel, orderBy)
  {
    Queries.ForcedFilterHolds(FileModel, Queries.Query(files, []), search, orderBy, "jockey_amazon_id", Int(id));
    Queries.ApplyFilters(FileModel, Queries.Query(files, []),
                         Queries.ForceFilter(search, "jockey_amazon_id", Int(id)), orderBy)
  }

  /**
   * `delete`: the id is looked up with a query object, which is always
   * truthy, so a missing jockey is not refused. When the jockey's stored
   * documents have objects, the batch deletion (`batchDeleted`) must
   * succeed; then the row goes. Returns the store and the object names
   * whose deletion was requested.
   */
  function Delete(s: Store, docs: seq<StorageServices.Document>, id: int, batchDeleted: bool): (r: (bool, Store, seq<string>))
    ensures r.2 == StorageServices.StoredPaths(docs, id)
    ensures r.0 <==> StorageServices.StoredPaths(docs, id) == [] || batchDeleted
    ensures r.0 ==> r.1 == s - {id}
    ensures !r.0 ==> r.1 == s
  {
    var paths := StorageServices.StoredPaths(docs, id);
    if paths != [] && !batchDeleted then (false, s, paths)
    else (true, s - {id}, paths)
  }

  /** Deleting an id no jockey has still reports success, and changes nothing. */
  lemma DeleteMissingSucceeds(s: Store, id: int)
    requires id !in s
    ensures Delete(s, [], id, false) == (true, s, [])
  {
    assert s - {id} == s;
  }
}
