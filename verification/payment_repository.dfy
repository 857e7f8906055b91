/**
 * The payment repository: payments keyed by id, archiving, deletion and the
 * page query with its inclusive date bounds and explicit ordering.
 */
module PaymentRepository {
  import opened Wrappers
  import opened PyValues
  import Queries
  import Enums

  /** A payment as the transitions read it; `rest` holds the other columns. */
  datatype Payment = Payment(isArchived: bool, rest: Dict)

  type Store = map<int, Payment>

  predicate OthersUnchanged(s: Store, s': Store, id: int) {
    s'.Keys == s.Keys && forall k :: k in s && k != id ==> s'[k] == s[k]
  }

  /** `get_by_id`: the payment, or `None`. */
  function GetById(s: Store, id: int): (r: Option<Payment>)
    ensures r.Some? <==> id in s
    ensures r.Some? ==> r.value == s[id]
  {
    if id in s then Some(s[id]) else None
  }

  /** `archive_payment`: refused for a missing or archived payment; otherwise archives it. */
  function ArchivePayment(s: Store, id: int): (r: (bool, Store))
    ensures r.0 <==> id in s && !s[id].isArchived
    ensures !r.0 ==> r.1 == s
    ensures r.0 ==> OthersUnchanged(s, r.1, id) && r.1[id].isArchived && r.1[id].rest == s[id].rest
  {
    if id !in s || s[id].isArchived then (false, s)
    else (true, s[id := s[id].(isArchived := true)])
  }

  /** `unarchive_payment`: refused for a missing or unarchived payment; otherwise un-archives it. */
  function UnarchivePayment(s: Store, id: int): (r: (bool, Store))
    ensures r.0 <==> id in s && s[id].isArchived
    ensures !r.0 ==> r.1 == s
    ensures r.0 ==> OthersUnchanged(s, r.1, id) && !r.1[id].isArchived && r.1[id].rest == s[id].rest
  {
    if id !in s || !s[id].isArchived then (false, s)
    else (true, s[id := s[id].(isArchived := false)])
  }

  /** The two operations undo each other, in either order. */
  lemma ArchiveUnarchiveInverse(s: Store, id: int)
    ensures ArchivePayment(s, id).0 ==> UnarchivePayment(ArchivePayment(s, id).1, id) == (true, s)
    ensures UnarchivePayment(s, id).0 ==> ArchivePayment(UnarchivePayment(s, id).1, id) == (true, s)
  {
    if ArchivePayment(s, id).0 {
      var s1 := ArchivePayment(s, id).1;
      assert s1[id := s1[id].(isArchived := false)] == s;
    }
    if UnarchivePayment(s, id).0 {
      var s1 := UnarchivePayment(s, id).1;
      assert s1[id := s1[id].(isArchived := true)] == s;
    }
  }

  /** `delete`: refused for a missing id; otherwise the row goes. */
  function Delete(s: Store, id: int): (r: (bool, Store))
    ensures r.0 <==> id in s
    ensures r.1.Keys == s.Keys - {id} && forall k :: k in r.1 ==> r.1[k] == s[k]
  {
    if id !in s then (false, s) else (true, s - {id})
  }

  /** The payment class's attributes. */
  const PaymentColumns: set<string> := {
    "id", "amount", "payment_date", "payment_type", "description", "beneficiary_id",
    "beneficiary", "is_archived", "inserted_at", "updated_at"}

  /**
   * Each `order_by` pair must name an attribute of the class and a method of
   * it; `getattr` raises otherwise. Only `asc` and `desc` are modelled.
   */
  predicate OrderableBy(orderBy: seq<(string, string)>) {
    forall i :: 0 <= i < |orderBy| ==> orderBy[i].0 in PaymentColumns && orderBy[i].1 in {"asc", "desc"}
  }

  /** The filters `get_page` reads from the top level of `search_query` (absent keys impose nothing). */
  function PageConditions(search: Dict): (cs: seq<Queries.Condition>)
    ensures |cs| <= 4
  {
    (if "payment_date__gte" in search then [Queries.Compare("payment_date", Queries.Ge, search["payment_date__gte"])] else [])
    + (if "payment_date__lte" in search then [Queries.Compare("payment_date", Queries.Le, search["payment_date__lte"])] else [])
    + (if "payment_type" in search then [Queries.Compare("payment_type", Queries.Eq, search["payment_type"])] else [])
    + (if "is_archived" in search then [Queries.Compare("is_archived", Queries.Eq, search["is_archived"])] else [])
  }

  function OrderKeys(orderBy: seq<(string, string)>): (keys: seq<Queries.OrderKey>)
    requires OrderableBy(orderBy)
    ensures |keys| == |orderBy|
    ensures forall i :: 0 <= i < |orderBy| ==>
      (keys[i].field == orderBy[i].0 && (keys[i].direction == Queries.Asc <==> orderBy[i].1 == "asc"))
  {
    seq(|orderBy|, i requires 0 <= i < |orderBy| =>
      Queries.OrderKey(orderBy[i].0, if orderBy[i].1 == "asc" then Queries.Asc else Queries.Desc))
  }

  /** `get_page(page, per_page, search_query, order_by)`: the filtered payments and their ordering. */
  function GetPage(rows: seq<Queries.Row>, search: Dict, orderBy: seq<(string, string)>): (r: Queries.Query)
    requires OrderableBy(orderBy)
    ensures r.order == OrderKeys(orderBy)
  {
    Queries.WhereAllIsConjunction(Queries.Query(rows, []), PageConditions(search));
    Queries.OrderAll(Queries.WhereAll(Queries.Query(rows, []), PageConditions(search)), OrderKeys(orderBy))
  }

  /**
   * Which payments a search admits: both date bounds inclusive, the type
   * (a member's name, as the index page passes it) and the archive flag
   * equal in SQL.
   */
  predicate Admitted(search: Dict, x: Queries.Row) {
    var date := Attr(x, "payment_date");
    && ("payment_date__gte" in search ==> Queries.Compares(Queries.Ge, date, search["payment_date__gte"]))
    && ("payment_date__lte" in search ==> Queries.Compares(Queries.Le, date, search["payment_date__lte"]))
    && ("payment_type" in search ==> Queries.SqlEquals(Attr(x, "payment_type"), search["payment_type"]))
    && ("is_archived" in search ==> Queries.SqlEquals(Attr(x, "is_archived"), search["is_archived"]))
  }

  /** The page lists exactly the payments the search admits. */
  lemma GetPageRows(rows: seq<Queries.Row>, search: Dict, orderBy: seq<(string, string)>)
    requires OrderableBy(orderBy)
    ensures forall x :: x in GetPage(rows, search, orderBy).rows <==> x in rows && Admitted(search, x)
  {
    var cs := PageConditions(search);
    Queries.WhereAllIsConjunction(Queries.Query(rows, []), cs);
    forall x ensures Queries.HoldsAll(cs, x) <==> Admitted(search, x) {
      var a := if "payment_date__gte" in search then [Queries.Compare("payment_date", Queries.Ge, search["payment_date__gte"])] else [];
      var b := if "payment_date__lte" in search then [Queries.Compare("payment_date", Queries.Le, search["payment_date__lte"])] else [];
      var c := if "payment_type" in search then [Queries.Compare("payment_type", Queries.Eq, search["payment_type"])] else [];
      var d := if "is_archived" in search then [Queries.Compare("is_archived", Queries.Eq, search["is_archived"])] else [];
      assert cs == a + b + c + d;
      assert Queries.HoldsAll(a, x) <==> ("payment_date__gte" in search ==> Queries.Compares(Queries.Ge, Attr(x, "payment_date"), search["payment_date__gte"])) by {
        if a != [] { assert Queries.HoldsAll(a, x) <==> Queries.Holds(a[0], x); }
      }
      assert Queries.HoldsAll(b, x) <==> ("payment_date__lte" in search ==> Queries.Compares(Queries.Le, Attr(x, "payment_date"), search["payment_date__lte"])) by {
        if b != [] { assert Queries.HoldsAll(b, x) <==> Queries.Holds(b[0], x); }
      }
      assert Queries.HoldsAll(c, x) <==> ("payment_type" in search ==> Queries.SqlEquals(Attr(x, "payment_type"), search["payment_type"])) by {
        if c != [] { assert Queries.HoldsAll(c, x) <==> Queries.Holds(c[0], x); }
      }
      assert Queries.HoldsAll(d, x) <==> ("is_archived" in search ==> Queries.SqlEquals(Attr(x, "is_archived"), search["is_archived"])) by {
        if d != [] { assert Queries.HoldsAll(d, x) <==> Queries.Holds(d[0], x); }
      }
      Queries.HoldsAllAppend(a + b + c, d, x);
      Queries.HoldsAllAppend(a + b, c, x);
      Queries.HoldsAllAppend(a, b, x);
    }
  }

  /**
   * The index page filters by the type's name (`form.payment_type.data`) and
   * always by `is_archived = False`: exactly the unarchived payments of that
   * type are listed.
   */
  lemma TypeNameFilter(rows: seq<Queries.Row>, m: Member, orderBy: seq<(string, string)>)
    requires OrderableBy(orderBy) && m in Enums.PaymentType
    requires forall x :: x in rows ==> Attr(x, "payment_type").Enum? && Attr(x, "payment_type").member in Enums.PaymentType
    ensures var search := map["payment_type" := Str(m.name), "is_archived" := Bool(false)];
      forall x :: x in GetPage(rows, search, orderBy).rows <==>
        x in rows && Attr(x, "payment_type") == Enum(m) && Attr(x, "is_archived") == Bool(false)
  {
    var search := map["payment_type" := Str(m.name), "is_archived" := Bool(false)];
    GetPageRows(rows, search, orderBy);
    assert Enums.NamesDistinct(Enums.PaymentType);
    forall x | x in rows
      ensures Admitted(search, x) <==> Attr(x, "payment_type") == Enum(m) && Attr(x, "is_archived") == Bool(false)
    {
      Queries.NameSelectsMember(Enums.PaymentType, m, Attr(x, "payment_type"));
      Queries.PlainEquals(Attr(x, "is_archived"), Bool(false));
    }
  }

  /** A payment dated exactly on both bounds is listed: the bounds are inclusive. */
  lemma BoundsInclusive(rows: seq<Queries.Row>, x: Queries.Row, day: int)
    requires x in rows && Attr(x, "payment_date") == Date(day)
    ensures var search := map["payment_date__gte" := Date(day), "payment_date__lte" := Date(day)];
      x in GetPage(rows, search, []).rows
  {
    var search := map["payment_date__gte" := Date(day), "payment_date__lte" := Date(day)];
    GetPageRows(rows, search, []);
  }

  /** An empty search lists every payment. */
  lemma EmptySearchListsAll(rows: seq<Queries.Row>)
    ensures GetPage(rows, map[], []).rows == rows
  {
    assert PageConditions(map[]) == [];
  }
}
