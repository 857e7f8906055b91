/**
 * The employee repository: employees keyed by id, their transitions, and
 * the queries that list them. Archiving and recovering an employee also
 * switch the linked user account.
 */
module EmployeeRepository {
  import opened Wrappers
  import opened PyValues
  import Enums
  import Queries
  import StorageServices
  import UserRepository
  import EquestrianRepository

  /** An employee as far as the repository's transitions read it; `position` is a job position. */
  datatype Employee = Employee(
    email: string,
    dni: string,
    position: Member,
    isActive: bool,
    isDeleted: bool,
    userId: Option<int>)

  type Store = map<int, Employee>

  /** Every employee but `id` is untouched and none appears or disappears. */
  predicate OthersUnchanged(s: Store, s': Store, id: int) {
    s'.Keys == s.Keys && forall k :: k in s && k != id ==> s'[k] == s[k]
  }

  /** `if employee.user_id`: a linked account with a truthy id. */
  predicate HasAccount(e: Employee) {
    e.userId.Some? && e.userId.value != 0
  }

  /** The user ids employees point to: the users whose `employee` back-reference is set. */
  function LinkedUsers(s: Store): (r: set<int>)
    ensures forall u :: u in r <==> exists id :: id in s && s[id].userId == Some(u)
  {
    set id | id in s && s[id].userId.Some? :: s[id].userId.value
  }

  /** The account an employee switches must exist: `User.query.get(...)` would give `None`. */
  predicate AccountExists(s: Store, users: UserRepository.Store, id: int) {
    id in s && HasAccount(s[id]) ==> s[id].userId.value in users
  }

  /** The users with account `u` set to `enabled`, others untouched. */
  function SetEnabled(users: UserRepository.Store, u: int, enabled: bool): (r: UserRepository.Store)
    requires u in users
    ensures UserRepository.OthersUnchanged(users, r, u)
    ensures r[u] == users[u].(enabled := enabled)
  {
    users[u := users[u].(enabled := enabled)]
  }

  /**
   * `archive`: refused for a missing or archived employee; otherwise archives
   * and deactivates it, and disables its linked account.
   */
  function Archive(s: Store, users: UserRepository.Store, id: int): (r: (bool, Store, UserRepository.Store))
    requires AccountExists(s, users, id)
    ensures r.0 <==> id in s && !s[id].isDeleted
    ensures !r.0 ==> r.1 == s && r.2 == users
    ensures r.0 ==> OthersUnchanged(s, r.1, id) && r.1[id].isDeleted && !r.1[id].isActive
                    && r.1[id].(isDeleted := s[id].isDeleted, isActive := s[id].isActive) == s[id]
    ensures r.0 && HasAccount(s[id]) ==> r.2 == SetEnabled(users, s[id].userId.value, false)
    ensures r.0 && !HasAccount(s[id]) ==> r.2 == users
  {
    if id !in s || s[id].isDeleted then (false, s, users)
    else
      var e := s[id];
      var users' := if HasAccount(e) then SetEnabled(users, e.userId.value, false) else users;
      (true, s[id := e.(isDeleted := true, isActive := false)], users')
  }

  /**
   * `recover`: refused unless the employee is archived; otherwise clears the
   * flag and enables its linked account. `is_active` is not restored.
   */
  function Recover(s: Store, users: UserRepository.Store, id: int): (r: (bool, Store, UserRepository.Store))
    requires AccountExists(s, users, id)
    ensures r.0 <==> id in s && s[id].isDeleted
    ensures !r.0 ==> r.1 == s && r.2 == users
    ensures r.0 ==> OthersUnchanged(s, r.1, id) && !r.1[id].isDeleted
                    && r.1[id].(isDeleted := s[id].isDeleted) == s[id]
    ensures r.0 && HasAccount(s[id]) ==> r.2 == SetEnabled(users, s[id].userId.value, true)
    ensures r.0 && !HasAccount(s[id]) ==> r.2 == users
  {
    if id !in s || !s[id].isDeleted then (false, s, users)
    else
      var e := s[id];
      var users' := if HasAccount(e) then SetEnabled(users, e.userId.value, true) else users;
      (true, s[id := e.(isDeleted := false)], users')
  }

  /** Archive then recover: the employee is back but stays inactive, and its account is enabled. */
  lemma RecoverAfterArchiveLeavesInactive(s: Store, users: UserRepository.Store, id: int)
    requires AccountExists(s, users, id) && id in s && !s[id].isDeleted
    ensures var (_, s1, u1) := Archive(s, users, id);
      var (ok, s2, u2) := Recover(s1, u1, id);
      && ok && !s2[id].isDeleted && !s2[id].isActive
      && s2 == s[id := s[id].(isActive := false)]
      && (HasAccount(s[id]) ==> u2 == SetEnabled(users, s[id].userId.value, true))
  {
    var (_, s1, u1) := Archive(s, users, id);
    assert s1[id := s1[id].(isDeleted := false)] == s[id := s[id].(isActive := false)];
    if HasAccount(s[id]) {
      var u := s[id].userId.value;
      assert u1[u := u1[u].(enabled := true)] == users[u := users[u].(enabled := true)];
    }
  }

  /**
   * `delete`: refused for a missing employee. When its stored documents have
   * objects, the batch deletion (`batchDeleted`) must succeed; then the row
   * goes. Also returns the object names whose deletion was requested.
   */
  function Delete(s: Store, docs: seq<StorageServices.Document>, id: int, batchDeleted: bool): (r: (bool, Store, seq<string>))
    ensures r.2 == (if id in s then StorageServices.StoredPaths(docs, id) else [])
    ensures r.0 <==> id in s && (StorageServices.StoredPaths(docs, id) == [] || batchDeleted)
    ensures r.0 ==> r.1 == s - {id}
    ensures !r.0 ==> r.1 == s
  {
    if id !in s then (false, s, [])
    else
      var paths := StorageServices.StoredPaths(docs, id);
      if paths != [] && !batchDeleted then (false, s, paths)
      else (true, s - {id}, paths)
  }

  /** A failed storage deletion keeps the employee whenever it has an object stored. */
  lemma DeleteKeepsOnStorageFailure(s: Store, docs: seq<StorageServices.Document>, id: int, d: StorageServices.Document)
    requires id in s && d in docs && StorageServices.HasObject(d, id)
    ensures var r := Delete(s, docs, id, false); !r.0 && r.1 == s && d.path in r.2
  {
  }

  /** `is_email_used`: the first employee with this email, deleted or not, exists. */
  function IsEmailUsed(s: Store, email: string): (r: bool)
    ensures r <==> exists id :: id in s && s[id].email == email
  {
    var emails := set id | id in s :: s[id].email;
    email in emails
  }

  /** `is_dni_used`: the first employee with this DNI, deleted or not, exists. */
  function IsDniUsed(s: Store, dni: string): (r: bool)
    ensures r <==> exists id :: id in s && s[id].dni == dni
  {
    var dnis := set id | id in s :: s[id].dni;
    dni in dnis
  }

  /** `link_account(id, account)`: refused for a missing employee; otherwise points it to the account (or to none). */
  function LinkAccount(s: Store, id: int, account: Option<int>): (r: (bool, Store))
    ensures r.0 <==> id in s
    ensures !r.0 ==> r.1 == s
    ensures r.0 ==> OthersUnchanged(s, r.1, id) && r.1[id].userId == account && r.1[id].(userId := s[id].userId) == s[id]
  {
    if id !in s then (false, s) else (true, s[id := s[id].(userId := account)])
  }

  /** After linking, the account is among the linked users exactly when one was given. */
  lemma LinkAccountLinks(s: Store, id: int, u: int)
    requires id in s
    ensures u in LinkedUsers(LinkAccount(s, id, Some(u)).1)
  {
    var s' := LinkAccount(s, id, Some(u)).1;
    assert s'[id].userId == Some(u);
  }

  /** `toggled_activation`: flips `is_active` and returns the new value (a missing employee raises). */
  function ToggledActivation(s: Store, id: int): (r: (bool, Store))
    requires id in s
    ensures r.0 == !s[id].isActive
    ensures OthersUnchanged(s, r.1, id) && r.1[id].isActive == r.0 && r.1[id].(isActive := s[id].isActive) == s[id]
  {
    (!s[id].isActive, s[id := s[id].(isActive := !s[id].isActive)])
  }

  lemma ToggledActivationTwice(s: Store, id: int)
    requires id in s
    ensures ToggledActivation(ToggledActivation(s, id).1, id).1 == s
  {
    var s1 := ToggledActivation(s, id).1;
    assert s1[id := s1[id].(isActive := !s1[id].isActive)] == s;
  }

  /** `is_employee_active`: false for a falsy id without a lookup; otherwise the flag. */
  function IsEmployeeActive(s: Store, id: int): (r: bool)
    requires id != 0 ==> id in s
    ensures r <==> id != 0 && s[id].isActive
  {
    if id == 0 then false else s[id].isActive
  }

  /** The number of rows whose `field` equals the integer `id` (`filter_by(field=id).count()`). */
  function CountWhere(rows: seq<Queries.Row>, field: string, id: int): (n: nat)
    ensures n <= |rows|
    ensures n == 0 <==> forall x :: x in rows ==> Attr(x, field) != Int(id)
  {
    if rows == [] then 0
    else
      assert forall x :: x in rows <==> x == rows[0] || x in rows[1..];
      (if Attr(rows[0], field) == Int(id) then 1 else 0) + CountWhere(rows[1..], field, id)
  }

  /** `count_id_in_charges_and_payments`: charges naming the employee plus payments to it as beneficiary. */
  function CountIdInChargesAndPayments(charges: seq<Queries.Row>, payments: seq<Queries.Row>, id: int): (n: nat)
    ensures n == CountWhere(charges, "employee_id", id) + CountWhere(payments, "beneficiary_id", id)
    ensures n == 0 <==> ((forall x :: x in charges ==> Attr(x, "employee_id") != Int(id))
                         && (forall x :: x in payments ==> Attr(x, "beneficiary_id") != Int(id)))
  {
    CountWhere(charges, "employee_id", id) + CountWhere(payments, "beneficiary_id", id)
  }

  /** Counting over a concatenation adds up: the count is additive over the rows. */
  lemma {:induction false} CountWhereAppend(a: seq<Queries.Row>, b: seq<Queries.Row>, field: string, id: int)
    ensures CountWhere(a + b, field, id) == CountWhere(a, field, id) + CountWhere(b, field, id)
  {
    if a == [] {
      assert a + b == b;
    } else {
      assert (a + b)[1..] == a[1..] + b;
      CountWhereAppend(a[1..], b, field, id);
    }
  }

  /** The attributes `hasattr` finds on the employee class: columns, mixin columns and relationships. */
  const EmployeeModel := Queries.Model({
    "id", "email", "name", "lastname", "dni", "profession", "position", "job_condition",
    "start_date", "end_date", "health_insurance", "affiliate_number", "is_active",
    "inserted_at", "updated_at", "is_deleted", "user_id", "user", "files",
    "horse_trainings", "charges", "street", "number", "department", "locality",
    "province", "country_code", "area_code", "phone", "emergency_contact_name",
    "emergency_contact_phone"})

  /**
   * `get_page`: the employee rows through `apply_filters`. No deletion flag
   * is tested, so archived employees are listed too; the requested order
   * clauses on known columns are the whole ordering.
   */
  function GetPage(rows: seq<Queries.Row>, search: Queries.SearchQuery, orderBy: seq<(string, string)>): (r: Queries.Query)
    ensures forall x :: x in r.rows <==> x in rows && Queries.Selected(EmployeeModel, search, x)
    ensures r.order == Queries.OrderKeys(EmployeeModel, orderBy)
  {
    var q := Queries.Query(rows, []);
    Queries.ApplyFilters(EmployeeModel, q, search, orderBy)
  }

  /**
   * `get_active_employees(positions, page, search)`: active, non-archived
   * employees, restricted to the named positions when any are given and to
   * the text search when `search` is non-empty. The filter and search
   * helpers it calls are imported from the common repository module but not
   * part of this model: the criteria are read as equality filters and the
   * text search is the predicate `matches`.
   */
  function GetActiveEmployees(rows: seq<Queries.Row>, positions: seq<string>, search: string,
                              matches: Queries.Row -> bool): (r: seq<Queries.Row>)
    ensures forall x :: x in r <==> (
      && x in rows && Attr(x, "is_active") == Bool(true) && Attr(x, "is_deleted") == Bool(false)
      && (positions != [] ==> Attr(x, "position").Enum? && Attr(x, "position").member in Enums.JobPosition
                              && Attr(x, "position").member.name in positions)
      && (search != "" ==> matches(x)))
  {
    var active := Queries.Keep(Queries.Keep(rows, Queries.Compare("is_active", Queries.Eq, Bool(true))),
                               Queries.Compare("is_deleted", Queries.Eq, Bool(false)));
    var placed := if positions != [] then Queries.Keep(active, Queries.OneOf("position", PositionValues(positions))) else active;
    if search != "" then KeepMatching(placed, matches) else placed
  }

  /** The enum values of the positions named, as `position.in_(names)` compares them. */
  function PositionValues(names: seq<string>): (r: set<Value>)
    ensures forall v :: v in r <==> v.Enum? && v.member in Enums.JobPosition && v.member.name in names
  {
    set m | m in Enums.JobPosition && m.name in names :: Enum(m)
  }

  function KeepMatching(rows: seq<Queries.Row>, matches: Queries.Row -> bool): (r: seq<Queries.Row>)
    ensures forall x :: x in r <==> x in rows && matches(x)
  {
    if rows == [] then []
    else
      assert forall x :: x in rows <==> x == rows[0] || x in rows[1..];
      (if matches(rows[0]) then [rows[0]] else []) + KeepMatching(rows[1..], matches)
  }

  /** The positions `__get_query_trainers` keeps. */
  const TrainerPositions: set<Value> := {Enum(Enums.JobPosition[2]), Enum(Enums.JobPosition[6])}

  /** `PositionEnum["CONDUCTOR"]` in `__get_query_trainers` is the first trainer position. */
  lemma ConductorNamed()
    ensures Enums.ByName(Enums.JobPosition, "CONDUCTOR") == Some(Enums.JobPosition[2])
  {
    var p := Enums.JobPosition;
    var n := "CONDUCTOR";
    assert p == p[..2] + p[2..];
    Enums.ByNameAfter(p[..2], p[2..], n);
    assert p[2..][0] == p[2];
    Enums.ByNameStops(p[2..], n, 0);
  }

  /** `PositionEnum["ENTRENADOR_CABALLOS"]` in `__get_query_trainers` is the second. */
  lemma HorseTrainerNamed()
    ensures Enums.ByName(Enums.JobPosition, "ENTRENADOR_CABALLOS") == Some(Enums.JobPosition[6])
  {
    var p := Enums.JobPosition;
    var n := "ENTRENADOR_CABALLOS";
    assert p == p[..6] + p[6..];
    Enums.ByNameAfter(p[..6], p[6..], n);
    assert p[6..][0] == p[6];
    Enums.ByNameStops(p[6..], n, 0);
  }

  /** The employee ids linked to the horse the filter value names. */
  function LinkedTo(links: seq<EquestrianRepository.HorseTrainer>, horse: Value): (r: set<Value>)
    ensures forall v :: v in r <==> exists l :: l in links && Int(l.idHorse) == horse && v == Int(l.idEmployee)
  {
    set l | l in links && Int(l.idHorse) == horse :: Int(l.idEmployee)
  }

  /**
   * `get_paginated_trainers(page, search_query, order_by)`. With a truthy
   * `only_horse_id` filter: exactly the employees linked to that horse, with
   * no other filter and no ordering. Otherwise a truthy `not_horse_id` filter
   * drops the employees linked to that horse; the result keeps drivers and
   * horse trainers and goes through `apply_filters`.
   */
  function GetPaginatedTrainers(rows: seq<Queries.Row>, links: seq<EquestrianRepository.HorseTrainer>,
                                search: Queries.SearchQuery, orderBy: seq<(string, string)>): (r: Queries.Query)
    ensures forall x :: x in r.rows ==> x in rows
    ensures search.filters != [] && Truthy(Queries.ItemGet(search.filters, "only_horse_id")) ==>
      && r.order == []
      && forall x :: x in r.rows <==>
        x in rows && Attr(x, "id") in LinkedTo(links, Queries.ItemGet(search.filters, "only_horse_id"))
    ensures !(search.filters != [] && Truthy(Queries.ItemGet(search.filters, "only_horse_id"))) ==>
      && r.order == Queries.OrderKeys(EmployeeModel, orderBy)
      && forall x :: x in r.rows <==>
        && x in rows
        && Attr(x, "position") in TrainerPositions
        && (search.filters != [] && Truthy(Queries.ItemGet(search.filters, "not_horse_id")) ==>
              Attr(x, "id") !in LinkedTo(links, Queries.ItemGet(search.filters, "not_horse_id")))
        && Queries.Selected(EmployeeModel, search, x)
  {
    var only := Queries.ItemGet(search.filters, "only_horse_id");
    var not := Queries.ItemGet(search.filters, "not_horse_id");
    var all := Queries.Query(rows, []);
    if search.filters != [] && Truthy(only) then
      Queries.Where(all, Queries.OneOf("id", LinkedTo(links, only)))
    else
      var unlinked := if search.filters != [] && Truthy(not) then Queries.Where(all, Queries.NoneOf("id", LinkedTo(links, not))) else all;
      Queries.ApplyFilters(EmployeeModel, Queries.Where(unlinked, Queries.OneOf("position", TrainerPositions)), search, orderBy)
  }

  /** The include mode: exactly the employees linked to the horse, whatever their position, unordered. */
  lemma TrainersOfHorseOnly(rows: seq<Queries.Row>, links: seq<EquestrianRepository.HorseTrainer>,
                            search: Queries.SearchQuery, orderBy: seq<(string, string)>, h: int)
    requires Queries.ItemGet(search.filters, "only_horse_id") == Int(h) && h != 0
    ensures var q := GetPaginatedTrainers(rows, links, search, orderBy);
      q.order == [] && forall x :: x in q.rows <==> (x in rows && Attr(x, "id").Int?
                                                 && EquestrianRepository.HorseTrainer(h, Attr(x, "id").i) in links)
  {
    var q := GetPaginatedTrainers(rows, links, search, orderBy);
    forall x ensures x in q.rows <==> x in rows && Attr(x, "id").Int? && EquestrianRepository.HorseTrainer(h, Attr(x, "id").i) in links {
      if x in rows && Attr(x, "id").Int? && EquestrianRepository.HorseTrainer(h, Attr(x, "id").i) in links {
        assert Attr(x, "id") in LinkedTo(links, Int(h));
      }
    }
  }

  /** The exclude mode's rows before `apply_filters`: exactly the drivers and horse trainers not linked to horse `h`. */
  function UnlinkedTrainers(rows: seq<Queries.Row>, links: seq<EquestrianRepository.HorseTrainer>, h: int): (r: Queries.Query)
    ensures forall x :: x in r.rows <==>
      && x in rows
      && Attr(x, "position") in TrainerPositions
      && !(Attr(x, "id").Int? && EquestrianRepository.HorseTrainer(h, Attr(x, "id").i) in links)
  {
    var unlinked := Queries.Where(Queries.Query(rows, []), Queries.NoneOf("id", LinkedTo(links, Int(h))));
    var r := Queries.Where(unlinked, Queries.OneOf("position", TrainerPositions));
    forall x ensures Attr(x, "id") in LinkedTo(links, Int(h)) <==>
      Attr(x, "id").Int? && EquestrianRepository.HorseTrainer(h, Attr(x, "id").i) in links
    {
      if Attr(x, "id").Int? && EquestrianRepository.HorseTrainer(h, Attr(x, "id").i) in links {
        assert Attr(x, "id") in LinkedTo(links, Int(h));
      }
    }
    r
  }

  /** The exclude mode: exactly the drivers and horse trainers not linked to the horse that the rest of the search selects. */
  lemma TrainersNotOfHorse(rows: seq<Queries.Row>, links: seq<EquestrianRepository.HorseTrainer>,
                           search: Queries.SearchQuery, orderBy: seq<(string, string)>, h: int)
    requires !Truthy(Queries.ItemGet(search.filters, "only_horse_id"))
    requires Queries.ItemGet(search.filters, "not_horse_id") == Int(h) && h != 0
    ensures forall x :: x in GetPaginatedTrainers(rows, links, search, orderBy).rows <==>
      && x in rows
      && Attr(x, "position") in TrainerPositions
      && !(Attr(x, "id").Int? && EquestrianRepository.HorseTrainer(h, Attr(x, "id").i) in links)
      && Queries.Selected(EmployeeModel, search, x)
  {
    assert search.filters != [];
    var trainers := UnlinkedTrainers(rows, links, h);
    assert GetPaginatedTrainers(rows, links, search, orderBy) == Queries.ApplyFilters(EmployeeModel, trainers, search, orderBy);
  }
}
