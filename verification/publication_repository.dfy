/**
 * The publication repository: publications keyed by id, their logical
 * deletion and recovery, and the page query with its date range.
 */
module PublicationRepository {
  import opened Wrappers
  import opened PyValues
  import Enums
  import Queries
  import Calendar

  /**
   * A publication as the repository's transitions read it. `updateDate` is
   * a timestamp by its ordinal; `rest` holds the columns no transition reads.
   * `isDeleted` is the column the repository and the mapper read but the
   * model class does not declare: only the `...Declared` transitions, which
   * assume it exists, look at it.
   */
  datatype Publication = Publication(status: Member, isDeleted: bool, updateDate: int, rest: Dict)

  type Store = map<int, Publication>

  predicate OthersUnchanged(s: Store, s': Store, id: int) {
    s'.Keys == s.Keys && forall k :: k in s && k != id ==> s'[k] == s[k]
  }

  /** `get_by_id`: the publication (mapped to a dictionary by the caller's mapper), or `None`. */
  function GetById(s: Store, id: int): (r: Option<Publication>)
    ensures r.Some? <==> id in s
    ensures r.Some? ==> r.value == s[id]
  {
    if id in s then Some(s[id]) else None
  }

  /** `delete_publication`: refused for a missing id; otherwise the row goes. */
  function DeletePublication(s: Store, id: int): (r: (bool, Store))
    ensures r.0 <==> id in s
    ensures r.1.Keys == s.Keys - {id} && forall k :: k in r.1 ==> r.1[k] == s[k]
  {
    if id !in s then (false, s) else (true, s - {id})
  }

  /**
   * What a call of the deletion and recovery transitions does: it returns a
   * flag and the store after it, or it raises `AttributeError`.
   */
  datatype Outcome = Returned(ok: bool, store: Store) | RaisedAttributeError

  /**
   * `logical_delete_publication` as written. The `Publication` class declares
   * no `is_deleted` column (nor does the publication model anywhere else), so
   * the guard's read of `publication.is_deleted` raises `AttributeError` for
   * every publication found; only a missing id gets past the guard's first
   * operand and returns `False`. Nothing is ever archived.
   */
  function LogicalDelete(s: Store, id: int): (r: Outcome)
    ensures r.RaisedAttributeError? <==> id in s
    ensures r.Returned? ==> !r.ok && r.store == s
  {
    if id !in s then Returned(false, s) else RaisedAttributeError
  }

  /** `recover_publication` as written: the same read raises for every publication found. */
  function RecoverPublication(s: Store, id: int): (r: Outcome)
    ensures r.RaisedAttributeError? <==> id in s
    ensures r.Returned? ==> !r.ok && r.store == s
  {
    if id !in s then Returned(false, s) else RaisedAttributeError
  }

  /**
   * `logical_delete_publication` with the `is_deleted` column declared, as
   * the repository and the mapper assume: refused for a missing or deleted
   * publication; otherwise marks it deleted and archived, stamped `now`.
   */
  function LogicalDeleteDeclared(s: Store, id: int, now: int): (r: (bool, Store))
    ensures r.0 <==> id in s && !s[id].isDeleted
    ensures !r.0 ==> r.1 == s
    ensures r.0 ==> OthersUnchanged(s, r.1, id) && r.1[id].isDeleted && r.1[id].status == Enums.Archived
                    && r.1[id].updateDate == now && r.1[id].rest == s[id].rest
  {
    if id !in s || s[id].isDeleted then (false, s)
    else (true, s[id := s[id].(isDeleted := true, status := Enums.Archived, updateDate := now)])
  }

  /**
   * `recover_publication` with the column declared: refused unless the
   * publication is deleted; otherwise restores it as a draft, whatever its
   * status was before.
   */
  function RecoverPublicationDeclared(s: Store, id: int, now: int): (r: (bool, Store))
    ensures r.0 <==> id in s && s[id].isDeleted
    ensures !r.0 ==> r.1 == s
    ensures r.0 ==> OthersUnchanged(s, r.1, id) && !r.1[id].isDeleted && r.1[id].status == Enums.Draft
                    && r.1[id].updateDate == now && r.1[id].rest == s[id].rest
  {
    if id !in s || !s[id].isDeleted then (false, s)
    else (true, s[id := s[id].(isDeleted := false, status := Enums.Draft, updateDate := now)])
  }

  /**
   * With the column declared, a publication deleted and recovered comes back
   * as a draft, not with its earlier status.
   */
  lemma RecoverGivesDraft(s: Store, id: int, t1: int, t2: int)
    requires id in s && !s[id].isDeleted
    ensures var s1 := LogicalDeleteDeclared(s, id, t1).1;
      var (ok, s2) := RecoverPublicationDeclared(s1, id, t2);
      ok && s2 == s[id := s[id].(status := Enums.Draft, updateDate := t2)]
  {
    var s1 := LogicalDeleteDeclared(s, id, t1).1;
    assert s1[id := s1[id].(isDeleted := false, status := Enums.Draft, updateDate := t2)]
        == s[id := s[id].(status := Enums.Draft, updateDate := t2)];
  }

  /**
   * The two readings part on the first stored publication: as written the
   * call raises, where the declared column would have archived it.
   */
  lemma DeleteRaisesWhereDeclaredArchives()
    ensures var s := map[1 := Publication(Enums.PublicationStatus[1], false, 0, map[])];
      && LogicalDelete(s, 1) == RaisedAttributeError
      && LogicalDeleteDeclared(s, 1, 5).0 && LogicalDeleteDeclared(s, 1, 5).1[1].status == Enums.Archived
      && RecoverPublication(LogicalDeleteDeclared(s, 1, 5).1, 1) == RaisedAttributeError
  {
  }

  /** The publication class's attributes as `hasattr` sees them. */
  const PublicationModel := Queries.Model({
    "id", "publish_date", "creation_date", "update_date", "title", "summary",
    "content", "author_id", "status", "author"})

  /** The date-range conditions and the filters left for `apply_filters`. */
  datatype DateRange = DateRange(conditions: seq<Queries.Condition>, search: Queries.SearchQuery)

  /**
   * The date handling of `get_page`: with non-empty filters, a `start_date`
   * keeps publications published strictly after it and an `end_date`
   * strictly before it; each key is popped from the filters.
   */
  function SplitDateRange(search: Queries.SearchQuery): (r: DateRange)
    ensures r.search.text == search.text && r.search.field == search.field
    ensures !Queries.HasKey(r.search.filters, "start_date") && !Queries.HasKey(r.search.filters, "end_date")
    ensures forall p :: p in r.search.filters <==> p in search.filters && p.0 != "start_date" && p.0 != "end_date"
  {
    var filters := search.filters;
    var startConds := if filters != [] && Queries.HasKey(filters, "start_date")
      then [Queries.Compare("publish_date", Queries.Gt, Queries.ItemGet(filters, "start_date"))] else [];
    var endConds := if filters != [] && Queries.HasKey(filters, "end_date")
      then [Queries.Compare("publish_date", Queries.Lt, Queries.ItemGet(filters, "end_date"))] else [];
    var left := Queries.RemoveItem(Queries.RemoveItem(filters, "start_date"), "end_date");
    forall i | 0 <= i < |left| ensures left[i].0 != "start_date" {
      assert left[i] in left;
    }
    forall i | 0 <= i < |left| ensures left[i].0 != "end_date" {
      assert left[i] in left;
    }
    DateRange(startConds + endConds, search.(filters := left))
  }

  /**
   * `get_page(page, per_page, search_query, order_by)`: exactly the stored
   * publications strictly inside the given date bounds that the remaining
   * search selects, in the order of the known `order_by` clauses.
   */
  function GetPage(rows: seq<Queries.Row>, search: Queries.SearchQuery, orderBy: seq<(string, string)>): (r: Queries.Query)
    ensures forall x :: x in r.rows <==>
      x in rows && Queries.HoldsAll(SplitDateRange(search).conditions, x)
      && Queries.Selected(PublicationModel, SplitDateRange(search).search, x)
    ensures r.order == Queries.OrderKeys(PublicationModel, orderBy)
  {
    var range := SplitDateRange(search);
    Queries.WhereAllIsConjunction(Queries.Query(rows, []), range.conditions);
    Queries.ApplyFilters(PublicationModel, Queries.WhereAll(Queries.Query(rows, []), range.conditions), range.search, orderBy)
  }

  /** Both bounds are strict: a publication dated exactly on a bound is never listed. */
  lemma GetPageStrictBounds(rows: seq<Queries.Row>, search: Queries.SearchQuery, orderBy: seq<(string, string)>,
                            start: Value, end: Value)
    requires Queries.ItemGet(search.filters, "start_date") == start && start != PyNone
    requires Queries.ItemGet(search.filters, "end_date") == end && end != PyNone
    ensures forall x :: x in GetPage(rows, search, orderBy).rows ==>
      x in rows && Queries.Compares(Queries.Gt, Attr(x, "publish_date"), start)
      && Queries.Compares(Queries.Lt, Attr(x, "publish_date"), end)
  {
    var range := SplitDateRange(search);
    var inRange := Queries.WhereAll(Queries.Query(rows, []), range.conditions);
    assert ("start_date", start) in search.filters;
    assert ("end_date", end) in search.filters;
    assert Queries.HasKey(search.filters, "start_date") by {
      var i :| 0 <= i < |search.filters| && search.filters[i] == ("start_date", start);
    }
    assert Queries.HasKey(search.filters, "end_date") by {
      var i :| 0 <= i < |search.filters| && search.filters[i] == ("end_date", end);
    }
    Queries.WhereAllIsConjunction(Queries.Query(rows, []), range.conditions);
    Queries.ApplyFiltersNarrows(PublicationModel, inRange, range.search, orderBy);
    forall x | x in GetPage(rows, search, orderBy).rows
      ensures Queries.Compares(Queries.Gt, Attr(x, "publish_date"), start)
        && Queries.Compares(Queries.Lt, Attr(x, "publish_date"), end)
    {
      assert x in inRange.rows;
      assert Queries.HoldsAll(range.conditions, x);
      assert Queries.Holds(range.conditions[0], x);
      assert Queries.Holds(range.conditions[1], x);
    }
  }

  /** The search the public articles API builds from the texts of two days, without an author. */
  function ApiSearch(from: string, to: string): Queries.SearchQuery {
    Queries.SearchQuery([("start_date", Str(from)), ("end_date", Str(to)), ("status", Str("PUBLISHED"))], None, None)
  }

  /** The two ISO day texts of the articles API become the two date conditions ... */
  lemma ApiConditions(from: string, to: string)
    ensures SplitDateRange(ApiSearch(from, to)).conditions ==
      [Queries.Compare("publish_date", Queries.Gt, Str(from)), Queries.Compare("publish_date", Queries.Lt, Str(to))]
  {
    var filters := ApiSearch(from, to).filters;
    assert filters[0].0 == "start_date" && filters[1].0 == "end_date";
    assert Queries.HasKey(filters, "start_date") && Queries.HasKey(filters, "end_date");
    assert Queries.ItemGet(filters, "start_date") == Str(from);
    assert filters[1..][0] == filters[1];
    assert Queries.ItemGet(filters[1..], "end_date") == Str(to);
  }

  /** ... and only the status is left to `apply_filters`. */
  lemma ApiLeftover(from: string, to: string)
    ensures forall p :: p in SplitDateRange(ApiSearch(from, to)).search.filters <==> p == ("status", Str("PUBLISHED"))
    ensures SplitDateRange(ApiSearch(from, to)).search.text.None?
  {
    var filters := ApiSearch(from, to).filters;
    assert forall p :: p in filters <==> p == filters[0] || p == filters[1] || p == filters[2];
  }

  /**
   * The public articles API passes the bounds as `date.isoformat()` texts and
   * the status as the name `PUBLISHED`: a stored publication is listed iff it
   * was published after the first second of the first day and before the
   * first second of the second, and is published.
   */
  lemma ApiPage(rows: seq<Queries.Row>, y: int, m: int, d: int, y2: int, m2: int, d2: int,
                orderBy: seq<(string, string)>)
    requires Calendar.ValidDate(y, m, d) && Calendar.ValidDate(y2, m2, d2)
    requires forall x :: x in rows ==>
      Attr(x, "publish_date").Date? && Attr(x, "status").Enum? && Attr(x, "status").member in Enums.PublicationStatus
    ensures forall x :: x in GetPage(rows, ApiSearch(Calendar.IsoText(y, m, d), Calendar.IsoText(y2, m2, d2)), orderBy).rows <==>
      && x in rows
      && Calendar.Midnight(y, m, d) < Attr(x, "publish_date").ordinal < Calendar.Midnight(y2, m2, d2)
      && Attr(x, "status") == Enum(Enums.PublicationStatus[1])
  {
    var from, to := Calendar.IsoText(y, m, d), Calendar.IsoText(y2, m2, d2);
    var range := SplitDateRange(ApiSearch(from, to));
    Calendar.IsoRoundTrip(y, m, d);
    Calendar.IsoRoundTrip(y2, m2, d2);
    forall x | x in rows
      ensures Queries.HoldsAll(range.conditions, x) && Queries.Selected(PublicationModel, range.search, x) <==>
        Calendar.Midnight(y, m, d) < Attr(x, "publish_date").ordinal < Calendar.Midnight(y2, m2, d2)
        && Attr(x, "status") == Enum(Enums.PublicationStatus[1])
    {
      ApiRowDates(x, from, to);
      ApiRowStatus(x, from, to);
    }
  }

  /** One stored publication against the API's date bounds. */
  lemma ApiRowDates(x: Queries.Row, from: string, to: string)
    requires Calendar.IsoDate(from).Some? && Calendar.IsoDate(to).Some? && Attr(x, "publish_date").Date?
    ensures Queries.HoldsAll(SplitDateRange(ApiSearch(from, to)).conditions, x) <==>
      Calendar.IsoDate(from).value < Attr(x, "publish_date").ordinal < Calendar.IsoDate(to).value
  {
    var cs := SplitDateRange(ApiSearch(from, to)).conditions;
    ApiConditions(from, to);
    Queries.IsoBounds(Attr(x, "publish_date").ordinal, from);
    Queries.IsoBounds(Attr(x, "publish_date").ordinal, to);
    assert Queries.HoldsAll(cs, x) <==> Queries.Holds(cs[0], x) && Queries.Holds(cs[1], x);
  }

  /** One stored publication against the API's status name. */
  lemma ApiRowStatus(x: Queries.Row, from: string, to: string)
    requires Attr(x, "status").Enum? && Attr(x, "status").member in Enums.PublicationStatus
    ensures Queries.Selected(PublicationModel, SplitDateRange(ApiSearch(from, to)).search, x) <==>
      Attr(x, "status") == Enum(Enums.PublicationStatus[1])
  {
    var range := SplitDateRange(ApiSearch(from, to));
    ApiLeftover(from, to);
    assert Enums.NamesDistinct(Enums.PublicationStatus);
    Queries.NameSelectsMember(Enums.PublicationStatus, Enums.PublicationStatus[1], Attr(x, "status"));
    Queries.FiltersMatchByItems(PublicationModel, range.search.filters, [("status", Str("PUBLISHED"))], x);
    assert "status" in PublicationModel.attributes;
  }

  /** Without date keys the page is exactly `apply_filters` on the publications. */
  lemma GetPageWithoutDates(rows: seq<Queries.Row>, search: Queries.SearchQuery, orderBy: seq<(string, string)>)
    requires !Queries.HasKey(search.filters, "start_date") && !Queries.HasKey(search.filters, "end_date")
    ensures GetPage(rows, search, orderBy) == Queries.ApplyFilters(PublicationModel, Queries.Query(rows, []), search, orderBy)
  {
    RemoveAbsent(search.filters, "start_date");
    RemoveAbsent(Queries.RemoveItem(search.filters, "start_date"), "end_date");
  }

  lemma {:induction false} RemoveAbsent(items: Queries.Items, k: string)
    requires !Queries.HasKey(items, k)
    ensures Queries.RemoveItem(items, k) == items
  {
    if items != [] {
      assert items[0].0 != k;
      forall i | 0 <= i < |items[1..]| ensures items[1..][i].0 != k {
        assert items[1..][i] == items[i + 1];
      }
      RemoveAbsent(items[1..], k);
    }
  }
}
