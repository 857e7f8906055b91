/**
 * The enumerations of the back end, each as the sequence of its members in
 * definition order (the order Python iterates an `Enum` class), and the
 * helpers that turn them into form choices and look members up.
 */
module Enums {
  import opened Wrappers
  import opened PyValues

  type Enumeration = seq<Member>

  // employee/data.py
  const JobPosition: Enumeration := [
    Member("ADMINISTRATIVO", "Administrativo/a"), Member("TERAPEUTA", "Terapeuta"),
    Member("CONDUCTOR", "Conductor"), Member("AUXILIAR_PISTA", "Auxiliar de pista"),
    Member("HERRERO", "Herrero"), Member("VETERINARIO", "Veterinario"),
    Member("ENTRENADOR_CABALLOS", "Entrenador de Caballos"), Member("DOMADOR", "Domador"),
    Member("PROFESOR_EQUITACION", "Profesor de Equitación"),
    Member("DOCENTE_CAPACITACION", "Docente de Capacitación"),
    Member("AUXILIAR_MANTENIMIENTO", "Auxiliar de mantenimiento"), Member("OTRO", "Otro")]

  const JobCondition: Enumeration := [
    Member("VOLUNTARIO", "Voluntario"), Member("PERSONAL_RENTADO", "Personal Rentado"), Member("OTRO", "Otro")]

  // jockey_amazon/data.py
  const DisabilityType: Enumeration := [
    Member("NONE", "No aplica"), Member("MENTAL", "Mental"), Member("MOTOR", "Motora"),
    Member("SENSORY", "Sensorial"), Member("VISCERAL", "Visceral")]

  const FamilyAssignment: Enumeration := [
    Member("UNIVERSAL_WITH_CHILD", "Asignación Universal por hijo"),
    Member("UNIVERSAL_WITH_DISABLED_CHILD", "Asignación Universal por hijo con Discapacidad"),
    Member("ANNUAL_SCHOOL_HELP", "Asignación por ayuda escolar anual")]

  const Pension: Enumeration := [Member("PROVINCIAL", "Provincial"), Member("NATIONAL", "Nacional")]

  const WorkProposal: Enumeration := [
    Member("HIPOTHERAPY", "Hipoterapia"), Member("THERAPEUTIC_RIDING", "Monta Terapéutica"),
    Member("ADAPTED_EQUESTRIAN_SPORTS", "Deporte Ecuestre Adaptado"),
    Member("RECREATIONAL_ACTIVITIES", "Actividades Recreativas"), Member("RIDING", "Equitación")]

  const WorkCondition: Enumeration := [Member("REGULAR", "Regular"), Member("DISMISSED", "De baja")]

  const Sede: Enumeration := [Member("CASJ", "CASJ"), Member("HLP", "HLP"), Member("OTHER", "OTRO")]

  const Day: Enumeration := [
    Member("MONDAY", "Lunes"), Member("TUESDAY", "Martes"), Member("WEDNESDAY", "Miércoles"),
    Member("THURSDAY", "Jueves"), Member("FRIDAY", "Viernes"), Member("SATURDAY", "Sábado"),
    Member("SUNDAY", "Domingo")]

  const EducationLevel: Enumeration := [
    Member("PRIMARY", "Primario"), Member("SECONDARY", "Secundario"),
    Member("TERTIARY", "Terciario"), Member("UNIVERSITY", "Universitario")]

  // payment/data.py, publication/models.py, contact/models.py
  const PaymentType: Enumeration := [
    Member("HONORARIOS", "HONORARIOS"), Member("PROOVEDOR", "PROOVEDOR"), Member("GASTOS", "GASTOS")]

  const PublicationStatus: Enumeration := [
    Member("DRAFT", "Borrador"), Member("PUBLISHED", "Publicado"), Member("ARCHIVED", "Archivado")]

  const Draft := PublicationStatus[0]
  const Archived := PublicationStatus[2]

  const MessageState: Enumeration := [Member("PENDING", "Pendiente"), Member("RESOLVED", "Resuelto")]

  const Pending := MessageState[0]

  /** No two members share a name, as Python requires of an `Enum` class. */
  predicate NamesDistinct(e: Enumeration) {
    forall i, j :: 0 <= i < j < |e| ==> e[i].name != e[j].name
  }

  /** The member called `name` (`E[name]`), if any; the first one when names repeat. */
  function ByName(e: Enumeration, name: string): (r: Option<Member>)
    ensures r.Some? <==> exists m :: m in e && m.name == name
    ensures r.Some? ==> r.value in e && r.value.name == name
  {
    if e == [] then None
    else if e[0].name == name then Some(e[0])
    else ByName(e[1..], name)
  }

  /** The lookup by name passes over a run of members with other names. */
  lemma {:induction false} ByNameAfter(a: Enumeration, b: Enumeration, name: string)
    requires forall m :: m in a ==> m.name != name
    ensures ByName(a + b, name) == ByName(b, name)
  {
    if a != [] {
      assert (a + b)[0] == a[0] && (a + b)[1..] == a[1..] + b;
      ByNameAfter(a[1..], b, name);
    } else {
      assert a + b == b;
    }
  }

  /** From position `i` on, the lookup by name stops at a member with that name. */
  lemma ByNameStops(e: Enumeration, name: string, i: nat)
    requires i < |e| && e[i].name == name
    ensures ByName(e[i..], name) == Some(e[i])
  {
    assert e[i..][0] == e[i];
  }

  /** The `(name, value)` pair of every member, in definition order. */
  function Pairs(e: Enumeration): (r: seq<(string, string)>)
    ensures |r| == |e|
    ensures forall i :: 0 <= i < |e| ==> r[i] == (e[i].name, e[i].value)
  {
    seq(|e|, i requires 0 <= i < |e| => (e[i].name, e[i].value))
  }

  /**
   * `enum_choices(E, first_value)`: the choices of a select field. A
   * `first_value` pair (always truthy, being a non-empty tuple) goes first.
   */
  function EnumChoices(e: Enumeration, firstValue: Option<(string, string)>): (r: seq<(string, string)>)
    ensures |r| == |e| + (if firstValue.Some? then 1 else 0)
    ensures firstValue.Some? ==> r[0] == firstValue.value && r[1..] == Pairs(e)
    ensures firstValue.None? ==> r == Pairs(e)
  {
    match firstValue
    case Some(first) => [first] + Pairs(e)
    case None => Pairs(e)
  }

  /** A choice names a member: reading the chosen name back with `E[name]` finds a member with that value. */
  lemma {:induction false} ChoicesRoundTrip(e: Enumeration, i: nat)
    requires i < |e|
    requires forall j, k :: 0 <= j < k < |e| ==> e[j].name != e[k].name
    ensures ByName(e, EnumChoices(e, None)[i].0) == Some(e[i])
  {
    if i > 0 {
      assert e[0].name != e[i].name;
      assert e[1..][i - 1] == e[i];
      ChoicesRoundTrip(e[1..], i - 1);
    }
  }
}
