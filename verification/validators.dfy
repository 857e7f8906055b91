/**
 * Field validators: the file-count and digits-only checks shared by every
 * form, and the uniqueness checks on e-mail addresses and DNI numbers, which
 * consult a repository unless the form is editing a record whose value is
 * unchanged. Raising `ValidationError(message)` is `Fail(message)`.
 */
module Validators {
  import opened Wrappers
  import opened PyValues
  import EmployeeRepository
  import JockeyRepository
  import UserRepository
  import Auth

  datatype Check = Pass | Fail(message: string)

  /** `if not message: message = default`: an absent or empty message falls back to the default. */
  function MessageOr(message: Option<string>, default: string): (r: string)
    ensures message.Some? && message.value != "" ==> r == message.value
    ensures message.None? || message.value == "" ==> r == default
  {
    if message.Some? && message.value != "" then message.value else default
  }

  /** `FilesNumber(min, max, message)`; a bound of -1 is disabled. */
  datatype FilesNumber = FilesNumber(min: int, max: int, message: string)

  /** The constructor, whose default message embeds both bounds. */
  function NewFilesNumber(min: int, max: int, message: Option<string>): (v: FilesNumber)
    ensures v.min == min && v.max == max
    ensures v.message == MessageOr(message,
      "Maximum number of files is " + IntToString(max) + " and the minimum " + IntToString(min) + ".")
  {
    FilesNumber(min, max, MessageOr(message,
      "Maximum number of files is " + IntToString(max) + " and the minimum " + IntToString(min) + "."))
  }

  /** The number of files a field holds; no data counts as an empty list. */
  function FileCount(data: Option<seq<Value>>): (n: nat)
    ensures data.None? ==> n == 0
    ensures data.Some? ==> n == |data.value|
  {
    if data.None? then 0 else |data.value|
  }

  /** `FilesNumber.__call__`: fails when an enabled bound is crossed. */
  function CheckFiles(v: FilesNumber, data: Option<seq<Value>>): (r: Check)
    ensures r == Pass || r == Fail(v.message)
  {
    var n := FileCount(data);
    if (v.min != -1 && n < v.min) || (v.max != -1 && n > v.max) then Fail(v.message) else Pass
  }

  /** With both bounds enabled, the count passes exactly when it lies between them, inclusive. */
  lemma FilesNumberWithinBounds(v: FilesNumber, data: Option<seq<Value>>)
    requires v.min != -1 && v.max != -1
    ensures CheckFiles(v, data).Pass? <==> v.min <= FileCount(data) <= v.max
  {
  }

  /** A bound of -1 is never crossed: with both disabled every count passes. */
  lemma FilesNumberUnbounded(data: Option<seq<Value>>, message: Option<string>)
    ensures CheckFiles(NewFilesNumber(-1, -1, message), data) == Pass
  {
  }

  /** No data is judged as an empty list. */
  lemma FilesNumberNoneIsEmpty(v: FilesNumber)
    ensures CheckFiles(v, None) == CheckFiles(v, Some([]))
  {
  }

  /** `IsNumber(message)`: the message, defaulting to "Debe ser un numero". */
  function NewIsNumber(message: Option<string>): (r: string)
    ensures r == MessageOr(message, "Debe ser un numero")
  {
    MessageOr(message, "Debe ser un numero")
  }

  /** `IsNumber.__call__`: the data must be a non-empty string of digits. */
  function CheckIsNumber(message: string, data: string): (r: Check)
    ensures r == Pass || r == Fail(message)
    ensures r.Pass? <==> data != "" && forall i :: 0 <= i < |data| ==> IsDigit(data[i])
  {
    if IsDigitString(data) then Pass else Fail(message)
  }

  /** Every natural number's decimal text passes; a negative number's does not (its sign is no digit). */
  lemma IsNumberDecimalText(message: string, n: int)
    ensures CheckIsNumber(message, IntToString(n)).Pass? <==> n >= 0
  {
    if n < 0 {
      assert IntToString(n)[0] == '-';
    }
  }

  /**
   * A uniqueness validator (`EmailExistence`, `DniExistence`). The value
   * given to its constructor (`current`) is stored but never read.
   */
  datatype Existence = Existence(current: Option<string>, message: string)

  /** Whether the repository was asked, and the outcome. */
  datatype Lookup = Lookup(consulted: bool, outcome: Check)

  /**
   * `__call__(form, field)`: when the form is editing (`formCurrent` is set)
   * and the value is unchanged the check passes without a lookup; otherwise
   * it fails exactly when the lookup (`used`) reports the value taken.
   */
  function CheckExistence(v: Existence, formCurrent: Option<string>, value: string, used: bool): (r: Lookup)
    ensures r.consulted <==> formCurrent != Some(value)
    ensures r.outcome == Pass || r.outcome == Fail(v.message)
    ensures r.outcome.Fail? <==> r.consulted && used
  {
    if formCurrent.Some? && value == formCurrent.value then Lookup(false, Pass)
    else Lookup(true, if used then Fail(v.message) else Pass)
  }

  /** Only the form's current value matters, never the validator's own. */
  lemma ExistenceIgnoresOwnCurrent(v: Existence, other: Option<string>, formCurrent: Option<string>, value: string, used: bool)
    ensures CheckExistence(v.(current := other), formCurrent, value, used) == CheckExistence(v, formCurrent, value, used)
  {
  }

  /** Editing a record without changing the value passes whatever the repository holds. */
  lemma UnchangedEditPasses(v: Existence, value: string, used: bool)
    ensures CheckExistence(v, Some(value), value, used) == Lookup(false, Pass)
  {
  }

  /** `employee.validators.EmailExistence(current_email, message)`. */
  function NewEmployeeEmailExistence(current: Option<string>, message: Option<string>): (v: Existence)
    ensures v.current == current && v.message == MessageOr(message, "Email en uso")
  {
    Existence(current, MessageOr(message, "Email en uso"))
  }

  /** `employee.validators.DniExistence(current_dni, message)`. */
  function NewEmployeeDniExistence(current: Option<string>, message: Option<string>): (v: Existence)
    ensures v.current == current && v.message == MessageOr(message, "DNI en uso")
  {
    Existence(current, MessageOr(message, "DNI en uso"))
  }

  /** `user.validators.EmailExistence(current_email, message)`. */
  function NewUserEmailExistence(current: Option<string>, message: Option<string>): (v: Existence)
    ensures v.current == current && v.message == MessageOr(message, "Email is used")
  {
    Existence(current, MessageOr(message, "Email is used"))
  }

  /** `jockey_amazon.validators.DniExistence(current_dni, message)`. */
  function NewJockeyDniExistence(current: Option<string>, message: Option<string>): (v: Existence)
    ensures v.current == current && v.message == MessageOr(message, "DNI en uso")
  {
    Existence(current, MessageOr(message, "DNI en uso"))
  }

  /** The employee e-mail check against the employee repository's `is_email_used`. */
  function EmployeeEmailCheck(s: EmployeeRepository.Store, v: Existence, formCurrent: Option<string>, email: string): (r: Lookup)
    ensures r.outcome.Fail? <==> formCurrent != Some(email) && exists id :: id in s && s[id].email == email
  {
    CheckExistence(v, formCurrent, email, EmployeeRepository.IsEmailUsed(s, email))
  }

  /** The employee DNI check against the employee repository's `is_dni_used`. */
  function EmployeeDniCheck(s: EmployeeRepository.Store, v: Existence, formCurrent: Option<string>, dni: string): (r: Lookup)
    ensures r.outcome.Fail? <==> formCurrent != Some(dni) && exists id :: id in s && s[id].dni == dni
  {
    CheckExistence(v, formCurrent, dni, EmployeeRepository.IsDniUsed(s, dni))
  }

  /** The jockey DNI check against the jockey repository's `is_dni_used`. */
  function JockeyDniCheck(s: JockeyRepository.Store, v: Existence, formCurrent: Option<string>, dni: string): (r: Lookup)
    ensures r.outcome.Fail? <==> formCurrent != Some(dni) && exists id :: id in s && s[id].dni == dni
  {
    CheckExistence(v, formCurrent, dni, JockeyRepository.IsDniUsed(s, dni))
  }

  /**
   * The user e-mail check against the authentication service's
   * `validate_email`; `first` is the row its `.first()` returned.
   */
  function UserEmailCheck(users: UserRepository.Store, v: Existence, formCurrent: Option<string>, email: string,
                          first: Option<int>): (r: Lookup)
    requires UserRepository.FirstWithEmail(users, email, first)
    ensures r.outcome.Fail? <==> formCurrent != Some(email) && exists id :: id in users && users[id].email == email
  {
    CheckExistence(v, formCurrent, email, Auth.ValidateEmail(users, email, first))
  }

  /** On creation (no current e-mail on the form) the service is always consulted. */
  lemma UserCreationConsults(users: UserRepository.Store, v: Existence, email: string, first: Option<int>)
    requires UserRepository.FirstWithEmail(users, email, first)
    ensures UserEmailCheck(users, v, None, email, first).consulted
  {
  }
}
