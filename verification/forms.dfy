/**
 * Form-level behaviour: the document upload form's consistency check, the
 * date-range checks of the search forms, the report form's limit choices,
 * the weekday checkbox field, the family form's validation and the
 * `*_to_flat` projections of the rider form. Field data is given as values;
 * a validation's appended error messages are part of its result.
 */
module Forms {
  import opened Wrappers
  import opened PyValues
  import JockeyRepository

  /** `max_file_size(size_in_mb)`: megabytes to bytes, a whole number of mebibytes. */
  function MaxFileSize(sizeInMb: int): (r: int)
    ensures r % 1048576 == 0 && r / 1048576 == sizeInMb
  {
    var bytesPerMb := 1024 * 1024;
    sizeInMb * bytesPerMb
  }

  const FileTooLargeMessage := "El archivo es demasiado grande"

  /**
   * The document form's `FileSize(max_size=max_file_size(5))` on the file
   * field: Flask-WTF's size check with its default minimum of 0 bytes,
   * failing with the form's message.
   */
  function DocumentFileSizeCheck(size: nat): (r: Option<string>)
  {
    if size <= MaxFileSize(5) then None else Some(FileTooLargeMessage)
  }

  /** A document is accepted iff it is at most 5 MB, 5242880 bytes; a larger one gets the form's message. */
  lemma UploadLimit(size: nat)
    ensures DocumentFileSizeCheck(size).None? <==> size <= 5242880
    ensures DocumentFileSizeCheck(size).Some? ==> DocumentFileSizeCheck(size).value == "El archivo es demasiado grande"
  {
    assert MaxFileSize(5) == 5 * 1048576;
  }

  const AllowedFiletypes := ["pdf", "jpg", "jpeg", "png", "webp"]

  /** `, `-joins `.ext` for all but the last extension, then ` y .last`; an empty list raises. */
  function FormattedFiletypes(exts: seq<string>): (r: string)
    requires exts != []
    ensures EndsWith(r, " y ." + exts[|exts| - 1])
  {
    var shown := Dotted(exts[..|exts| - 1]);
    var tail := " y ." + exts[|exts| - 1];
    var r := Join(shown, ", ") + tail;
    assert r[|r| - |tail|..] == tail;
    r
  }

  /** Each extension with its leading dot. */
  function Dotted(exts: seq<string>): (r: seq<string>)
    ensures |r| == |exts|
    ensures forall i :: 0 <= i < |exts| ==> r[i] == "." + exts[i]
  {
    seq(|exts|, i requires 0 <= i < |exts| => "." + exts[i])
  }

  function FiletypesMessage(exts: seq<string>): (r: string)
    requires exts != []
  {
    "Formato no reconocido. Formato válido: " + FormattedFiletypes(exts)
  }

  /** The message the upload form shows lists the five extensions. */
  lemma FiletypesMessageText()
    ensures FiletypesMessage(AllowedFiletypes) == "Formato no reconocido. Formato válido: " + ".pdf, .jpg, .jpeg, .png y .webp"
  {
    FormattedAllowed();
  }

  lemma FormattedAllowed()
    ensures FormattedFiletypes(AllowedFiletypes) == ".pdf, .jpg, .jpeg, .png" + " y ." + "webp"
  {
    DottedAllowed();
    JoinedAllowed();
    assert AllowedFiletypes[|AllowedFiletypes| - 1] == "webp";
  }

  lemma DottedAllowed()
    ensures Dotted(AllowedFiletypes[..4]) == [".pdf", ".jpg", ".jpeg", ".png"]
  {
    var shown := Dotted(AllowedFiletypes[..4]);
    assert shown[0] == ".pdf" && shown[1] == ".jpg" && shown[2] == ".jpeg" && shown[3] == ".png";
  }

  lemma JoinedAllowed()
    ensures Join([".pdf", ".jpg", ".jpeg", ".png"], ", ") == ".pdf, .jpg, .jpeg, .png"
  {
  }

  /** The result of a validation and the error lists of the two fields it may write to. */
  datatype Outcome = Outcome(ok: bool, errorsA: seq<string>, errorsB: seq<string>)

  const NeedFile := "Debe adjuntar un archivo cuando selecciona \"Archivo\""
  const NeedUrl := "Debe proporcionar una URL cuando selecciona \"URL\""

  /**
   * `BaseManageDocumentsForm.validate`: the field validators first
   * (`baseValid`); then a file upload needs a file unless one is already
   * stored, and a URL upload needs a URL. `errorsA` is the file field's
   * list, `errorsB` the URL field's.
   */
  function ValidateDocuments(baseValid: bool, uploadType: Value, file: Value, url: Value,
                             alreadyUploaded: bool, fileErrors: seq<string>, urlErrors: seq<string>): (r: Outcome)
    ensures !baseValid ==> r == Outcome(false, fileErrors, urlErrors)
    ensures r.errorsA == fileErrors || r.errorsA == fileErrors + [NeedFile]
    ensures r.errorsB == urlErrors || r.errorsB == urlErrors + [NeedUrl]
    ensures r.ok <==> baseValid && !(uploadType == Str("file") && !Truthy(file) && !alreadyUploaded)
                                && !(uploadType == Str("url") && !Truthy(url))
    ensures !r.ok <==> !baseValid || r.errorsA != fileErrors || r.errorsB != urlErrors
  {
    if !baseValid then Outcome(false, fileErrors, urlErrors)
    else if uploadType == Str("file") then
      if !Truthy(file) && !alreadyUploaded then Outcome(false, fileErrors + [NeedFile], urlErrors)
      else Outcome(true, fileErrors, urlErrors)
    else if uploadType == Str("url") then
      if !Truthy(url) then Outcome(false, fileErrors, urlErrors + [NeedUrl])
      else Outcome(true, fileErrors, urlErrors)
    else Outcome(true, fileErrors, urlErrors)
  }

  /** An already stored file lets a file upload pass without a new file; without one it fails on the file field. */
  lemma DocumentsFileAlreadyUploaded(file: Value, url: Value)
    requires !Truthy(file)
    ensures ValidateDocuments(true, Str("file"), file, url, true, [], []) == Outcome(true, [], [])
    ensures ValidateDocuments(true, Str("file"), file, url, false, [], []) == Outcome(false, [NeedFile], [])
  {
  }

  const BothDates := "Se deben seleccionar ambas fechas."
  const StartAfterEnd := "La fecha de inicio no puede ser mayor a la fecha de fin."

  /** The range the charge and report searches accept: no dates, or both in order (equal allowed). */
  predicate RangeOk(start: Option<int>, end: Option<int>) {
    (start.None? && end.None?) || (start.Some? && end.Some? && start.value <= end.value)
  }

  /**
   * `PublicationSearchForm.validate`: no field validator runs (`searchText`
   * is never looked at); a missing date passes; otherwise a start after the
   * end fails with the start field's errors reset to that one message.
   * `errorsA` is the start date's list, `errorsB` the end date's.
   */
  function ValidatePublicationSearch(start: Option<int>, end: Option<int>, searchText: string,
                                     startErrors: seq<string>, endErrors: seq<string>): (r: Outcome)
    ensures r.ok <==> start.None? || end.None? || start.value <= end.value
    ensures r.ok ==> r.errorsA == startErrors
    ensures !r.ok ==> r.errorsA == [StartAfterEnd]
    ensures r.errorsB == endErrors
  {
    if start.None? || end.None? then Outcome(true, startErrors, endErrors)
    else if start.value > end.value then Outcome(false, [StartAfterEnd], endErrors)
    else Outcome(true, startErrors, endErrors)
  }

  /** The search text is never checked: an over-long one passes just the same. */
  lemma PublicationSearchIgnoresText(start: Option<int>, end: Option<int>, t1: string, t2: string,
                                     startErrors: seq<string>, endErrors: seq<string>)
    ensures ValidatePublicationSearch(start, end, t1, startErrors, endErrors)
         == ValidatePublicationSearch(start, end, t2, startErrors, endErrors)
  {
  }

  /**
   * `charges.forms.ChargeSearchForm.validate`: both dates or neither, in
   * order; each failure resets the blamed field's errors to one message
   * (the missing date's field, or the start when they are out of order).
   */
  function ValidateChargeSearch(start: Option<int>, finish: Option<int>,
                                startErrors: seq<string>, finishErrors: seq<string>): (r: Outcome)
    ensures r.ok <==> RangeOk(start, finish)
    ensures r.ok ==> r.errorsA == startErrors && r.errorsB == finishErrors
    ensures start.Some? && finish.None? ==> r.errorsA == startErrors && r.errorsB == [BothDates]
    ensures start.None? && finish.Some? ==> r.errorsA == [BothDates] && r.errorsB == finishErrors
    ensures start.Some? && finish.Some? && !r.ok ==> r.errorsA == [StartAfterEnd] && r.errorsB == finishErrors
  {
    if start.None? && finish.None? then Outcome(true, startErrors, finishErrors)
    else if start.Some? && finish.None? then Outcome(false, startErrors, [BothDates])
    else if start.None? && finish.Some? then Outcome(false, [BothDates], finishErrors)
    else if start.value > finish.value then Outcome(false, [StartAfterEnd], finishErrors)
    else Outcome(true, startErrors, finishErrors)
  }

  /** A field's error collection: WTForms may leave it a tuple, which has no `append`. */
  datatype Errors = TupleErrors(items: seq<string>) | ListErrors(items: seq<string>)

  function AsList(e: Errors): (r: Errors)
    ensures r.ListErrors? && r.items == e.items
  {
    ListErrors(e.items)
  }

  /** The report form's outcome: both lists come back as lists. */
  datatype ReportOutcome = ReportOutcome(ok: bool, startErrors: Errors, endErrors: Errors)

  /**
   * `report.forms.ChargeSearchForm.validate`: tuples become lists first;
   * then both dates or neither, in order, each failure appending one
   * message to the blamed field.
   */
  function ValidateReportSearch(start: Option<int>, end: Option<int>, startErrors: Errors, endErrors: Errors): (r: ReportOutcome)
    ensures r.startErrors.ListErrors? && r.endErrors.ListErrors?
    ensures r.ok <==> RangeOk(start, end)
    ensures r.ok ==> r.startErrors.items == startErrors.items && r.endErrors.items == endErrors.items
    ensures start.Some? && end.None? ==> r.startErrors.items == startErrors.items && r.endErrors.items == endErrors.items + [BothDates]
    ensures start.None? && end.Some? ==> r.startErrors.items == startErrors.items + [BothDates] && r.endErrors.items == endErrors.items
    ensures start.Some? && end.Some? && !r.ok ==>
      r.startErrors.items == startErrors.items + [StartAfterEnd] && r.endErrors.items == endErrors.items
  {
    var s, e := AsList(startErrors), AsList(endErrors);
    if start.Some? && end.None? then ReportOutcome(false, s, ListErrors(e.items + [BothDates]))
    else if start.None? && end.Some? then ReportOutcome(false, ListErrors(s.items + [BothDates]), e)
    else if start.Some? && end.Some? && start.value > end.value then ReportOutcome(false, ListErrors(s.items + [StartAfterEnd]), e)
    else ReportOutcome(true, s, e)
  }

  /**
   * The two search forms over charges accept the same date ranges; the
   * publication search accepts more, a lone date included.
   */
  lemma SearchFormsAgree(start: Option<int>, end: Option<int>, s1: seq<string>, s2: seq<string>, e1: Errors, e2: Errors)
    ensures ValidateChargeSearch(start, end, s1, s2).ok == ValidateReportSearch(start, end, e1, e2).ok
    ensures ValidateChargeSearch(start, end, s1, s2).ok ==> ValidatePublicationSearch(start, end, "", s1, s2).ok
    ensures start.Some? && end.None? ==>
      ValidatePublicationSearch(start, end, "", s1, s2).ok && !ValidateChargeSearch(start, end, s1, s2).ok
  {
  }

  /** The report form's default limits. */
  const DefaultLimits := [("10", "10"), ("25", "25"), ("50", "50"), ("100", "100")]

  /** How many multiples of ten `range(1, n // 10 + 1)` yields (Python's `//` floors, as Dafny's `/` does for a positive divisor). */
  function Tens(n: int): (k: nat)
    ensures n >= 0 ==> k == n / 10
    ensures n < 0 ==> k == 0
  {
    if n / 10 > 0 then n / 10 else 0
  }

  function Choice(n: int): (string, string) {
    (IntToString(n), IntToString(n))
  }

  /**
   * The report form's `limit` choices: with a truthy `max` = n, the
   * multiples of ten up to n and then n itself; otherwise the defaults.
   */
  function LimitChoices(max: Option<int>): (r: seq<(string, string)>)
    ensures max.None? || max.value == 0 ==> r == DefaultLimits
    ensures max.Some? && max.value != 0 ==>
      && |r| == Tens(max.value) + 1
      && (forall i :: 0 <= i < Tens(max.value) ==> r[i] == Choice(10 * (i + 1)))
      && r[|r| - 1] == Choice(max.value)
  {
    if max.None? || max.value == 0 then DefaultLimits
    else
      var n := max.value;
      seq(Tens(n), i requires 0 <= i < Tens(n) => Choice(10 * (i + 1))) + [Choice(n)]
  }

  /** A multiple of ten appears twice at the end of the choices; below ten only n itself is offered. */
  lemma LimitChoicesEnds(n: int)
    requires n > 0
    ensures n % 10 == 0 ==> var r := LimitChoices(Some(n)); r[|r| - 2] == r[|r| - 1]
    ensures n < 10 ==> LimitChoices(Some(n)) == [Choice(n)]
  {
    if n % 10 == 0 {
      var r := LimitChoices(Some(n));
      assert 10 * ((Tens(n) - 1) + 1) == n;
    }
  }

  const AtLeastOneDay := "Debe seleccionar al menos un día"

  /**
   * `MultipleCheckboxField.validate`: the field validators first
   * (`baseValid`), then at least one checked box; the selection is a list
   * or `None`.
   */
  function ValidateCheckboxes(baseValid: bool, data: Value, errors: seq<string>): (r: (bool, seq<string>))
    requires data.PyNone? || data.List?
    ensures r.0 <==> baseValid && data.List? && data.items != []
    ensures baseValid && !r.0 ==> r.1 == errors + [AtLeastOneDay]
    ensures !baseValid || r.0 ==> r.1 == errors
  {
    if !baseValid then (false, errors)
    else if !Truthy(data) || |data.items| == 0 then (false, errors + [AtLeastOneDay])
    else (true, errors)
  }

  /**
   * `FamilyInformationForm.validate`: the base validation runs but its
   * result (`baseValid`) is dropped; the first member must be free of
   * errors; a second member whose `is_optional` is truthy is skipped.
   * Otherwise the second member's `validate()` is called without the `form`
   * argument that `Field.validate` requires, which raises `TypeError`. The
   * `errors.clear()` on the skipped member empties a dictionary built for
   * the call, so it changes nothing.
   */
  function ValidateFamily(baseValid: bool, firstErrors: seq<string>, secondOptional: Value): (r: Result<bool>)
    ensures r.Raised? <==> firstErrors == [] && !Truthy(secondOptional)
    ensures r.Raised? ==> r.reason == "TypeError"
    ensures r.Ok? ==> (r.value <==> firstErrors == [])
  {
    if firstErrors != [] then Ok(false)
    else if Truthy(secondOptional) then Ok(true)
    else Raised("TypeError")
  }

  /** The base validation's own verdict never changes the outcome. */
  lemma FamilyIgnoresBaseResult(firstErrors: seq<string>, secondOptional: Value)
    ensures ValidateFamily(true, firstErrors, secondOptional) == ValidateFamily(false, firstErrors, secondOptional)
  {
  }

  /**
   * The hidden `is_optional` field is submitted as the text "True" or
   * "False". The mapper saves a second member exactly when that text
   * lower-cases to "false", but to the validation "False" is a non-empty,
   * truthy string: a filled-in second member passes without being checked.
   * Only the field's unsubmitted default, `False`, reaches the call that
   * raises.
   */
  lemma FamilySkipsFilledSecondMember(baseValid: bool)
    ensures AsciiLowerString("False") == "false"
    ensures ValidateFamily(baseValid, [], Str("False")) == Ok(true)
    ensures ValidateFamily(baseValid, [], Bool(false)) == Raised("TypeError")
  {
    assert AsciiLowerString("False") == "false";
  }

  /** The second member counts as filled in, as the mapper reads `is_optional`. */
  predicate SecondFilled(secondOptional: Value) {
    secondOptional.Str? && AsciiLowerString(secondOptional.s) == "false"
  }

  /** The family validation as intended: a second member the mapper will save must validate. */
  function ValidateFamilyIntended(firstErrors: seq<string>, secondOptional: Value, secondValid: bool): (r: bool)
    ensures r <==> firstErrors == [] && (SecondFilled(secondOptional) ==> secondValid)
  {
    if firstErrors != [] then false
    else if !SecondFilled(secondOptional) then true
    else secondValid
  }

  /** The intended validation rejects the filled-in invalid second member the written one lets through. */
  lemma FamilyIntendedChecksFilledSecond()
    ensures !ValidateFamilyIntended([], Str("false"), false)
    ensures !ValidateFamilyIntended([], Str("False"), false)
    ensures ValidateFamilyIntended([], Str("true"), false)
  {
    assert AsciiLowerString("False") == "false";
  }

  const GeneralTopKeys := {"first_name", "last_name", "dni", "birth_date", "birthplace"}
  const AddressKeys := {"street", "number", "department", "locality", "province"}
  const EmergencyKeys := {"emergency_contact_name", "emergency_contact_phone"}

  /**
   * `general_info_to_flat`: the personal fields, the address, phone and
   * emergency-contact sub-forms lifted to one level. The phone's `number`
   * becomes `phone`, so it does not collide with the street `number`.
   */
  function GeneralInfoToFlat(top: Dict, address: Dict, phone: Dict, emergency: Dict): (r: Dict)
    ensures r.Keys == GeneralFlatKeys
  {
    map k | k in GeneralFlatKeys :: GeneralField(top, address, phone, emergency, k)
  }

  const GeneralFlatKeys := GeneralTopKeys + AddressKeys + EmergencyKeys + {"country_code", "area_code", "phone"}

  /** Where each flat key of the general form is read from. */
  function GeneralField(top: Dict, address: Dict, phone: Dict, emergency: Dict, k: string): Value {
    if k in GeneralTopKeys then Get(top, k)
    else if k in AddressKeys then Get(address, k)
    else if k in EmergencyKeys then Get(emergency, k)
    else if k == "phone" then Get(phone, "number")
    else Get(phone, k)
  }

  /** The flat form keeps both numbers apart: `number` is the street's, `phone` the telephone's. */
  lemma GeneralFlatNumbers(top: Dict, address: Dict, phone: Dict, emergency: Dict)
    ensures GeneralInfoToFlat(top, address, phone, emergency)["number"] == Get(address, "number")
    ensures GeneralInfoToFlat(top, address, phone, emergency)["phone"] == Get(phone, "number")
  {
    GeneralPhoneKeysApart();
  }

  /** The phone's flat keys are no other section's, and the street `number` is the address's alone. */
  lemma GeneralPhoneKeysApart()
    ensures "country_code" !in GeneralTopKeys && "country_code" !in AddressKeys && "country_code" !in EmergencyKeys
    ensures "area_code" !in GeneralTopKeys && "area_code" !in AddressKeys && "area_code" !in EmergencyKeys
    ensures "phone" !in GeneralTopKeys && "phone" !in AddressKeys && "phone" !in EmergencyKeys
    ensures "number" !in GeneralTopKeys && "number" in AddressKeys
  {
  }

  /** The personal and address fields keep their names. */
  lemma GeneralFlatPersonal(top: Dict, address: Dict, phone: Dict, emergency: Dict)
    ensures var r := GeneralInfoToFlat(top, address, phone, emergency);
      && (forall k :: k in GeneralTopKeys ==> r[k] == Get(top, k))
      && (forall k :: k in AddressKeys ==> r[k] == Get(address, k))
  {
    GeneralSectionsApart();
  }

  lemma GeneralSectionsApart()
    ensures GeneralTopKeys !! AddressKeys && GeneralTopKeys !! EmergencyKeys && AddressKeys !! EmergencyKeys
  {
  }

  /** The emergency-contact fields keep their names. */
  lemma GeneralFlatEmergency(top: Dict, address: Dict, phone: Dict, emergency: Dict)
    ensures var r := GeneralInfoToFlat(top, address, phone, emergency);
      forall k :: k in EmergencyKeys ==> r[k] == Get(emergency, k)
  {
    GeneralSectionsApart();
  }

  /** The phone codes keep their names. */
  lemma GeneralFlatPhoneCodes(top: Dict, address: Dict, phone: Dict, emergency: Dict)
    ensures var r := GeneralInfoToFlat(top, address, phone, emergency);
      r["country_code"] == Get(phone, "country_code") && r["area_code"] == Get(phone, "area_code")
  {
    GeneralPhoneKeysApart();
  }

  /**
   * `family_info_to_flat`: the assignment type only with the assignment
   * box ticked, the pension type and details only with the pension box
   * ticked, and the members as they are.
   */
  function FamilyInfoToFlat(hasAssignment: Value, assignmentType: Value, hasPension: Value,
                            pensionType: Value, pensionDetails: Value, members: seq<Value>): (r: Dict)
    ensures r.Keys == {"has_family_assignment", "family_assignment_type", "has_pension",
                       "pension_type", "pension_details", "family_members"}
    ensures r["has_family_assignment"] == hasAssignment && r["has_pension"] == hasPension
    ensures r["family_assignment_type"] == (if Truthy(hasAssignment) then assignmentType else PyNone)
    ensures r["pension_type"] == (if Truthy(hasPension) then pensionType else PyNone)
    ensures r["pension_details"] == (if Truthy(hasPension) then pensionDetails else PyNone)
    ensures r["family_members"] == List(members)
  {
    map["has_family_assignment" := hasAssignment,
        "family_assignment_type" := if Truthy(hasAssignment) then assignmentType else PyNone,
        "has_pension" := hasPension,
        "pension_type" := if Truthy(hasPension) then pensionType else PyNone,
        "pension_details" := if Truthy(hasPension) then pensionDetails else PyNone,
        "family_members" := List(members)]
  }

  const HealthKeys := {"has_disability", "disability_diagnosis", "disability_other", "disability_type",
                       "social_security", "social_security_number", "has_curatorship", "curatorship_observations"}

  /** `health_info_to_flat`: the eight health fields under their own names. */
  function HealthInfoToFlat(form: Dict): (r: Dict)
    ensures r.Keys == HealthKeys
    ensures forall k :: k in HealthKeys ==> r[k] == Get(form, k)
  {
    Project(form, HealthKeys)
  }

  const SchoolFormKeys := {"street", "number", "department", "locality", "province",
                           "phone_country_code", "phone_area_code", "phone_number"}

  /**
   * `school_info_to_flat`: the school sub-form nested under
   * `school_institution`, its `school_name` renamed `name`, and the grade
   * and observations beside it.
   */
  function SchoolInfoToFlat(school: Dict, grade: Value, observations: Value): (r: Dict)
    ensures r.Keys == {"school_institution", "current_grade_year", "school_observations"}
    ensures r["school_institution"].Dict?
    ensures r["school_institution"].entries.Keys == SchoolFormKeys + {"name"}
    ensures r["school_institution"].entries["name"] == Get(school, "school_name")
    ensures forall k :: k in SchoolFormKeys ==> r["school_institution"].entries[k] == Get(school, k)
    ensures r["current_grade_year"] == grade && r["school_observations"] == observations
  {
    map["school_institution" := Dict(Project(school, SchoolFormKeys)[("name") := Get(school, "school_name")]),
        "current_grade_year" := grade,
        "school_observations" := observations]
  }

  /**
   * The flat school form is what `update_school_information` reads: saving
   * it renames the jockey's school to the form's `school_name` and sets the
   * grade and observations.
   */
  lemma SchoolFormUpdatesSchool(s: JockeyRepository.Store, id: int, school: Dict, grade: Value, observations: Value)
    requires id in s && s[id].school.Some?
    ensures var data := SchoolInfoToFlat(school, grade, observations);
      var j' := JockeyRepository.UpdateSchoolInformation(s, id, data).1[id];
      && j'.school.Some? && "name" in j'.school.value && j'.school.value["name"] == Get(school, "school_name")
      && j'.currentGradeYear == grade && j'.schoolObservations == observations
  {
    var data := SchoolInfoToFlat(school, grade, observations);
    assert "name" in JockeyRepository.SchoolSection(data);
    assert "name" in JockeyRepository.SchoolAttributes;
  }

  const WorkTopKeys := {"has_scholarship", "scholarship_observations", "scholarship_percentage", "professionals"}
  const WorkAssignmentKeys := {"proposal", "condition", "sede", "days"}

  /** `work_assignment_to_flat`: the scholarship fields, and the assignment sub-form nested under `work_assignments`. */
  function WorkAssignmentToFlat(form: Dict, assignments: Dict): (r: Dict)
    ensures r.Keys == WorkTopKeys + {"work_assignments"}
    ensures forall k :: k in WorkTopKeys ==> r[k] == Get(form, k)
    ensures r["work_assignments"] == Dict(Project(assignments, WorkAssignmentKeys))
  {
    Project(form, WorkTopKeys)[("work_assignments") := Dict(Project(assignments, WorkAssignmentKeys))]
  }
}
