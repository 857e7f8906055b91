/**
 * What the repositories ask of the database: a query is the sequence of rows
 * of one mapped class, narrowed by `filter` conditions and carrying the
 * `ORDER BY` clauses added to it. The database sorts and cuts pages when the
 * query runs; neither is modelled here.
 */
module Queries {
  import opened Wrappers
  import opened PyValues
  import Calendar
  import Enums

  /** A row: the column and relationship attributes of one entity. */
  type Row = map<string, Value>

  /** A dictionary in insertion order (Python's `dict.items()`): distinct keys. */
  type Items = seq<(string, Value)>

  datatype Direction = Asc | Desc

  datatype OrderKey = OrderKey(field: string, direction: Direction)

  datatype Query = Query(rows: seq<Row>, order: seq<OrderKey>)

  /** A mapped class, as far as `hasattr` can tell. */
  datatype Model = Model(attributes: set<string>)

  datatype Comparison = Eq | Lt | Gt | Le | Ge

  /** One SQL `WHERE` condition. */
  datatype Condition =
    | Compare(field: string, op: Comparison, operand: Value)
    | ContainsText(field: string, text: string)
    | OneOf(field: string, values: set<Value>)
    | NoneOf(field: string, values: set<Value>)

  /** The order SQL uses on dates and integers; other pairs (NULL above all) never compare. */
  predicate Below(a: Value, b: Value) {
    (a.Int? && b.Int? && a.i < b.i) || (a.Date? && b.Date? && a.ordinal < b.ordinal)
  }

  /**
   * The parameter `v` as the database reads it against the column value `x`.
   * SQLAlchemy's `Enum` column type binds a member's name as that member, so
   * a name string stands for the stored member it names. PostgreSQL casts an
   * ISO `YYYY-MM-DD` text compared with a date or timestamp to the first
   * second of that date. Any other parameter is read as given.
   */
  function Bound(x: Value, v: Value): (b: Value)
    ensures x.Enum? && v.Str? ==> (b == x <==> v.s == x.member.name)
    ensures x.Date? && v.Str? ==> (b.Date? <==> Calendar.IsoDate(v.s).Some?)
    ensures x.Date? && v.Str? && b.Date? ==> b.ordinal == Calendar.IsoDate(v.s).value
    ensures !v.Str? || !(x.Enum? || x.Date?) ==> b == v
  {
    if x.Enum? && v.Str? && v.s == x.member.name then x
    else if x.Date? && v.Str? && Calendar.IsoDate(v.s).Some? then Date(Calendar.IsoDate(v.s).value)
    else v
  }

  /** `x = v` in SQL, the parameter read against the column's type; `== None` is `IS NULL`. */
  predicate SqlEquals(x: Value, v: Value) {
    x == Bound(x, v)
  }

  /** `x op v` in SQL. An ordering comparison with NULL is never true. */
  predicate Compares(op: Comparison, x: Value, v: Value) {
    var b := Bound(x, v);
    match op
    case Eq => SqlEquals(x, v)
    case Lt => Below(x, b)
    case Gt => Below(b, x)
    case Le => Below(x, b) || (SqlEquals(x, v) && !x.PyNone?)
    case Ge => Below(b, x) || (SqlEquals(x, v) && !x.PyNone?)
  }

  /** A member's name selects exactly the rows holding that member. */
  lemma EnumNameEquals(m: Member, m2: Member)
    ensures SqlEquals(Enum(m2), Str(m.name)) <==> m2.name == m.name
  {
  }

  /**
   * Filtering an enumeration column by a member's name, as the index pages
   * pass it, keeps exactly the rows holding that member, provided the
   * enumeration's names are distinct.
   */
  lemma NameSelectsMember(e: Enums.Enumeration, m: Member, x: Value)
    requires Enums.NamesDistinct(e) && m in e
    requires x.Enum? && x.member in e
    ensures SqlEquals(x, Str(m.name)) <==> x == Enum(m)
  {
  }

  /** A parameter that is not a string compares as itself. */
  lemma PlainEquals(x: Value, v: Value)
    requires !v.Str?
    ensures SqlEquals(x, v) <==> x == v
  {
  }

  /**
   * An ISO date text bounds a date or timestamp column by the instant it
   * names: strictly after it, strictly before it, or at it.
   */
  lemma IsoBounds(t: int, s: string)
    requires Calendar.IsoDate(s).Some?
    ensures var u := Calendar.IsoDate(s).value;
      && (Compares(Gt, Date(t), Str(s)) <==> t > u)
      && (Compares(Lt, Date(t), Str(s)) <==> t < u)
      && (Compares(Ge, Date(t), Str(s)) <==> t >= u)
      && (Compares(Le, Date(t), Str(s)) <==> t <= u)
      && (Compares(Eq, Date(t), Str(s)) <==> t == u)
  {
  }

  /** In particular `date.isoformat()` bounds by the first second of that date. */
  lemma IsoTextBounds(t: int, y: int, m: int, d: int)
    requires Calendar.ValidDate(y, m, d)
    ensures var v := Str(Calendar.IsoText(y, m, d));
      && (Compares(Gt, Date(t), v) <==> t > Calendar.Midnight(y, m, d))
      && (Compares(Lt, Date(t), v) <==> t < Calendar.Midnight(y, m, d))
      && (Compares(Ge, Date(t), v) <==> t >= Calendar.Midnight(y, m, d))
      && (Compares(Le, Date(t), v) <==> t <= Calendar.Midnight(y, m, d))
      && (Compares(Eq, Date(t), v) <==> t == Calendar.Midnight(y, m, d))
  {
    Calendar.IsoRoundTrip(y, m, d);
    IsoBounds(t, Calendar.IsoText(y, m, d));
  }

  /** Text that is not an ISO date bounds no date: every comparison with it is false. */
  lemma NonIsoTextBoundsNothing(op: Comparison, t: int, s: string)
    requires Calendar.IsoDate(s).None?
    ensures !Compares(op, Date(t), Str(s))
  {
  }

  /**
   * Whether a row satisfies a condition. Equality with `None` is `IS NULL`;
   * an ordering comparison or a `LIKE` on a NULL column is never true.
   */
  predicate Holds(c: Condition, r: Row) {
    var x := Attr(r, c.field);
    match c
    case Compare(_, op, v) => Compares(op, x, v)
    case ContainsText(_, text) => x.Str? && ContainsSub(x.s, text)
    case OneOf(_, values) => x in values
    case NoneOf(_, values) => x !in values
  }

  /** The rows satisfying `c`, in their original order. */
  function Keep(rows: seq<Row>, c: Condition): (r: seq<Row>)
    ensures |r| <= |rows|
    ensures forall x :: x in r <==> x in rows && Holds(c, x)
  {
    if rows == [] then []
    else if Holds(c, rows[0]) then [rows[0]] + Keep(rows[1..], c)
    else Keep(rows[1..], c)
  }

  /** Filtering keeps the rows' order: the rows kept from two runs are those kept from each, in turn. */
  lemma {:induction false} KeepAppend(a: seq<Row>, b: seq<Row>, c: Condition)
    ensures Keep(a + b, c) == Keep(a, c) + Keep(b, c)
  {
    if a != [] {
      assert (a + b)[0] == a[0];
      assert (a + b)[1..] == a[1..] + b;
      KeepAppend(a[1..], b, c);
      if Holds(c, a[0]) {
        assert Keep(a + b, c) == [a[0]] + Keep(a[1..] + b, c);
        assert Keep(a, c) == [a[0]] + Keep(a[1..], c);
      } else {
        assert Keep(a + b, c) == Keep(a[1..] + b, c);
      }
    } else {
      assert a + b == b;
    }
  }

  /** A single row is kept iff it satisfies the condition. */
  lemma KeepSingle(x: Row, c: Condition)
    ensures Keep([x], c) == if Holds(c, x) then [x] else []
  {
    assert [x][1..] == [];
  }

  /** `query.filter(c)`. */
  function Where(q: Query, c: Condition): (r: Query)
    ensures r.order == q.order
    ensures forall x :: x in r.rows <==> x in q.rows && Holds(c, x)
  {
    Query(Keep(q.rows, c), q.order)
  }

  /** `query.order_by(...)`: one more clause, after those already present. */
  function OrderBy(q: Query, key: OrderKey): (r: Query)
    ensures r.rows == q.rows && r.order == q.order + [key]
  {
    Query(q.rows, q.order + [key])
  }

  /** A chain of `filter` calls. */
  function WhereAll(q: Query, cs: seq<Condition>): Query
    decreases |cs|
  {
    if cs == [] then q else WhereAll(Where(q, cs[0]), cs[1..])
  }

  predicate HoldsAll(cs: seq<Condition>, r: Row) {
    forall i :: 0 <= i < |cs| ==> Holds(cs[i], r)
  }

  /** Chained filters are a conjunction: a row survives iff it satisfies every condition. */
  lemma {:induction false} WhereAllIsConjunction(q: Query, cs: seq<Condition>)
    ensures WhereAll(q, cs).order == q.order
    ensures forall x :: x in WhereAll(q, cs).rows <==> x in q.rows && HoldsAll(cs, x)
    decreases |cs|
  {
    if cs != [] {
      WhereAllIsConjunction(Where(q, cs[0]), cs[1..]);
      forall x
        ensures HoldsAll(cs, x) <==> Holds(cs[0], x) && HoldsAll(cs[1..], x)
      {
        if Holds(cs[0], x) && HoldsAll(cs[1..], x) {
          forall i | 0 <= i < |cs| ensures Holds(cs[i], x) {
            if i > 0 { assert cs[i] == cs[1..][i - 1]; }
          }
        }
      }
    }
  }

  // ------------------------------------------------------------ apply_filters

  /**
   * The `search_query` dictionary: its `filters` items (empty when the key is
   * absent or falsy) and the `text` and `field` entries when present. `None`
   * and `{}` are both the query with nothing set.
   */
  datatype SearchQuery = SearchQuery(filters: Items, text: Option<string>, field: Option<string>)

  const NoSearch := SearchQuery([], None, None)

  /** The equality filters that name attributes of the model, in item order. */
  function FilterConditions(model: Model, filters: Items): (cs: seq<Condition>)
    ensures |cs| <= |filters|
  {
    if filters == [] then []
    else if filters[0].0 !in model.attributes then FilterConditions(model, filters[1..])
    else [Compare(filters[0].0, Eq, filters[0].1)] + FilterConditions(model, filters[1..])
  }

  /** The substring search, when both `text` and a known `field` are given. */
  function TextConditions(model: Model, search: SearchQuery): seq<Condition> {
    if search.text.Some? && search.field.Some? && search.field.value in model.attributes
    then [ContainsText(search.field.value, search.text.value)]
    else []
  }

  /** The `ORDER BY` clauses of the known fields whose direction is `asc` or `desc`. */
  function OrderKeys(model: Model, orderBy: seq<(string, string)>): (keys: seq<OrderKey>)
    ensures |keys| <= |orderBy|
  {
    if orderBy == [] then []
    else
      var (field, direction) := orderBy[0];
      var rest := OrderKeys(model, orderBy[1..]);
      if field !in model.attributes then rest
      else if direction == "asc" then [OrderKey(field, Asc)] + rest
      else if direction == "desc" then [OrderKey(field, Desc)] + rest
      else rest
  }

  function OrderAll(q: Query, keys: seq<OrderKey>): (r: Query)
    ensures r.rows == q.rows && r.order == q.order + keys
    decreases |keys|
  {
    if keys == [] then q
    else
      var r := OrderAll(OrderBy(q, keys[0]), keys[1..]);
      assert q.order + [keys[0]] + keys[1..] == q.order + keys;
      r
  }

  /** The conditions a search adds: the known equality filters, then the text search. */
  function SearchConditions(model: Model, search: SearchQuery): seq<Condition> {
    FilterConditions(model, search.filters) + TextConditions(model, search)
  }

  /**
   * `apply_filters(model, query, search_query, order_by)`: the rows are exactly
   * the input rows that satisfy every known equality filter and the text
   * search (filters on names that are not attributes of the model change
   * nothing), and the clauses added are those of the known fields with an
   * `asc`/`desc` direction, in order, after the query's own.
   */
  function ApplyFilters(model: Model, q: Query, search: SearchQuery, orderBy: seq<(string, string)>): (r: Query)
    ensures forall x :: x in r.rows <==> x in q.rows && Selected(model, search, x)
    ensures r.order == q.order + OrderKeys(model, orderBy)
  {
    var filtered := WhereAll(q, SearchConditions(model, search));
    SearchConditionsMeaning(model, search, q);
    OrderAll(filtered, OrderKeys(model, orderBy))
  }

  /** Whether a row passes the search: every known filter equals in SQL, the known search field contains the text. */
  predicate Selected(model: Model, search: SearchQuery, r: Row) {
    && FiltersMatch(model, search.filters, r)
    && (search.text.Some? && search.field.Some? && search.field.value in model.attributes ==>
          Attr(r, search.field.value).Str? && ContainsSub(Attr(r, search.field.value).s, search.text.value))
  }

  /** Every item naming an attribute of the model equals, in SQL, the row's value for it. */
  predicate FiltersMatch(model: Model, filters: Items, r: Row) {
    forall i :: 0 <= i < |filters| && filters[i].0 in model.attributes ==> SqlEquals(Attr(r, filters[i].0), filters[i].1)
  }

  lemma FiltersMatchCons(model: Model, filters: Items, r: Row)
    requires filters != []
    ensures FiltersMatch(model, filters, r)
        <==> (filters[0].0 in model.attributes ==> SqlEquals(Attr(r, filters[0].0), filters[0].1))
             && FiltersMatch(model, filters[1..], r)
  {
    if (filters[0].0 in model.attributes ==> SqlEquals(Attr(r, filters[0].0), filters[0].1))
       && FiltersMatch(model, filters[1..], r) {
      forall i | 0 <= i < |filters| && filters[i].0 in model.attributes
        ensures SqlEquals(Attr(r, filters[i].0), filters[i].1)
      {
        if i > 0 { assert filters[i] == filters[1..][i - 1]; }
      }
    }
    if FiltersMatch(model, filters, r) {
      forall i | 0 <= i < |filters[1..]| && filters[1..][i].0 in model.attributes
        ensures SqlEquals(Attr(r, filters[1..][i].0), filters[1..][i].1)
      {
        assert filters[1..][i] == filters[i + 1];
      }
    }
  }

  /**
   * An index page's filter `{k: m.name}` on an enumeration column of the
   * model keeps exactly the rows holding member `m` there.
   */
  lemma NameFilterSelects(model: Model, k: string, e: Enums.Enumeration, m: Member, r: Row)
    requires k in model.attributes
    requires Enums.NamesDistinct(e) && m in e
    requires Attr(r, k).Enum? && Attr(r, k).member in e
    ensures Selected(model, SearchQuery([(k, Str(m.name))], None, None), r) <==> Attr(r, k) == Enum(m)
  {
    var filters := [(k, Str(m.name))];
    assert FiltersMatch(model, filters, r) <==> SqlEquals(Attr(r, k), Str(m.name)) by {
      assert filters[0] == (k, Str(m.name));
    }
    NameSelectsMember(e, m, Attr(r, k));
  }

  /** Only which items are present matters to the filters, not their order or repetition. */
  lemma FiltersMatchByItems(model: Model, filters: Items, filters2: Items, r: Row)
    requires forall p :: p in filters <==> p in filters2
    ensures FiltersMatch(model, filters, r) <==> FiltersMatch(model, filters2, r)
  {
    if FiltersMatch(model, filters, r) {
      forall i | 0 <= i < |filters2| && filters2[i].0 in model.attributes
        ensures SqlEquals(Attr(r, filters2[i].0), filters2[i].1)
      {
        assert filters2[i] in filters;
      }
    }
    if FiltersMatch(model, filters2, r) {
      forall i | 0 <= i < |filters| && filters[i].0 in model.attributes
        ensures SqlEquals(Attr(r, filters[i].0), filters[i].1)
      {
        assert filters[i] in filters2;
      }
    }
  }

  /** The chained equality filters hold iff every known item matches. */
  lemma {:induction false} FilterConditionsMeaning(model: Model, filters: Items, r: Row)
    ensures HoldsAll(FilterConditions(model, filters), r) <==> FiltersMatch(model, filters, r)
  {
    if filters != [] {
      var (f, v) := filters[0];
      FilterConditionsMeaning(model, filters[1..], r);
      FiltersMatchCons(model, filters, r);
      if f in model.attributes {
        HoldsAllAppend([Compare(f, Eq, v)], FilterConditions(model, filters[1..]), r);
        var c := Compare(f, Eq, v);
        assert [c][0] == c;
        assert HoldsAll([c], r) <==> Holds(c, r);
      }
    }
  }

  lemma HoldsAllAppend(a: seq<Condition>, b: seq<Condition>, r: Row)
    ensures HoldsAll(a + b, r) <==> HoldsAll(a, r) && HoldsAll(b, r)
  {
    if HoldsAll(a, r) && HoldsAll(b, r) {
      forall i | 0 <= i < |a + b| ensures Holds((a + b)[i], r) {
        if i >= |a| { assert (a + b)[i] == b[i - |a|]; } else { assert (a + b)[i] == a[i]; }
      }
    }
    if HoldsAll(a + b, r) {
      forall i | 0 <= i < |b| ensures Holds(b[i], r) {
        assert (a + b)[|a| + i] == b[i];
      }
      forall i | 0 <= i < |a| ensures Holds(a[i], r) {
        assert (a + b)[i] == a[i];
      }
    }
  }

  /** The rows kept by the search conditions are the input rows the search selects. */
  lemma SearchConditionsMeaning(model: Model, search: SearchQuery, q: Query)
    ensures WhereAll(q, SearchConditions(model, search)).order == q.order
    ensures forall x :: x in WhereAll(q, SearchConditions(model, search)).rows <==> x in q.rows && Selected(model, search, x)
  {
    var cs := SearchConditions(model, search);
    WhereAllIsConjunction(q, cs);
    forall x ensures HoldsAll(cs, x) <==> Selected(model, search, x) {
      var text := TextConditions(model, search);
      HoldsAllAppend(FilterConditions(model, search.filters), text, x);
      FilterConditionsMeaning(model, search.filters, x);
      if text != [] {
        assert HoldsAll(text, x) <==> Holds(text[0], x);
      }
    }
  }

  /** The filters only narrow: every returned row was a row of the input query, and none is added. */
  lemma ApplyFiltersNarrows(model: Model, q: Query, search: SearchQuery, orderBy: seq<(string, string)>)
    ensures forall x :: x in ApplyFilters(model, q, search, orderBy).rows ==> x in q.rows
    ensures |ApplyFilters(model, q, search, orderBy).rows| <= |q.rows|
  {
    WhereAllShrinks(q, SearchConditions(model, search));
  }

  lemma {:induction false} WhereAllShrinks(q: Query, cs: seq<Condition>)
    ensures |WhereAll(q, cs).rows| <= |q.rows|
    decreases |cs|
  {
    if cs != [] {
      WhereAllShrinks(Where(q, cs[0]), cs[1..]);
    }
  }

  /** An order clause on a field the model lacks, or with another direction, is dropped. */
  lemma {:induction false} OrderKeysMeaning(model: Model, orderBy: seq<(string, string)>, key: OrderKey)
    ensures key in OrderKeys(model, orderBy) <==>
      exists i :: 0 <= i < |orderBy| && orderBy[i].0 == key.field && key.field in model.attributes
        && orderBy[i].1 == (if key.direction == Asc then "asc" else "desc")
  {
    if orderBy != [] {
      OrderKeysMeaning(model, orderBy[1..], key);
      assert forall i :: 1 <= i < |orderBy| ==> orderBy[i] == orderBy[1..][i - 1];
      if key in OrderKeys(model, orderBy[1..]) {
        var i :| 0 <= i < |orderBy[1..]| && orderBy[1..][i].0 == key.field && key.field in model.attributes
          && orderBy[1..][i].1 == (if key.direction == Asc then "asc" else "desc");
        assert orderBy[i + 1] == orderBy[1..][i];
      }
    }
  }

  /** An equality filter on a name the model lacks leaves the result exactly as it was. */
  lemma ApplyFiltersSkipsUnknownField(model: Model, q: Query, search: SearchQuery, orderBy: seq<(string, string)>,
                                      field: string, value: Value)
    requires field !in model.attributes
    ensures ApplyFilters(model, q, search.(filters := search.filters + [(field, value)]), orderBy)
         == ApplyFilters(model, q, search, orderBy)
  {
    FilterConditionsSkipLast(model, search.filters, field, value);
  }

  lemma {:induction false} FilterConditionsSkipLast(model: Model, filters: Items, field: string, value: Value)
    requires field !in model.attributes
    ensures FilterConditions(model, filters + [(field, value)]) == FilterConditions(model, filters)
  {
    if filters == [] {
      assert filters + [(field, value)] == [(field, value)];
    } else {
      assert (filters + [(field, value)])[1..] == filters[1..] + [(field, value)];
      FilterConditionsSkipLast(model, filters[1..], field, value);
    }
  }

  /** `d.get(k)` on a dictionary in insertion order: the value of key `k`, or `None`. */
  function ItemGet(items: Items, k: string): (r: Value)
    ensures r != PyNone ==> (k, r) in items
    ensures (forall i :: 0 <= i < |items| ==> items[i].0 != k) ==> r == PyNone
  {
    if items == [] then PyNone
    else if items[0].0 == k then items[0].1
    else ItemGet(items[1..], k)
  }

  /** `d.pop(k)` for its effect on the dictionary: every item but the one with key `k`, in order. */
  function RemoveItem(items: Items, k: string): (r: Items)
    ensures |r| <= |items|
    ensures forall p :: p in r <==> p in items && p.0 != k
  {
    if items == [] then []
    else
      assert forall p :: p in items <==> p == items[0] || p in items[1..];
      (if items[0].0 == k then [] else [items[0]]) + RemoveItem(items[1..], k)
  }

  /** `k in d` for a dictionary in insertion order. */
  predicate HasKey(items: Items, k: string) {
    exists i :: 0 <= i < |items| && items[i].0 == k
  }

  /** `d[k] = v` on a dictionary: an existing key is overwritten in place, a new key goes last. */
  function SetItem(items: Items, k: string, v: Value): (r: Items)
    ensures exists i :: 0 <= i < |r| && r[i] == (k, v)
    ensures forall i :: 0 <= i < |r| && r[i].0 == k ==> r[i].1 == v
    ensures forall p :: p in items && p.0 != k ==> p in r
    ensures forall p :: p in r && p.0 != k ==> p in items
  {
    if exists i :: 0 <= i < |items| && items[i].0 == k then
      var r := seq(|items|, i requires 0 <= i < |items| => if items[i].0 == k then (k, v) else items[i]);
      assert forall p :: p in items && p.0 != k ==> p in r by {
        forall p | p in items && p.0 != k ensures p in r {
          var i :| 0 <= i < |items| && items[i] == p;
          assert r[i] == p;
        }
      }
      var j :| 0 <= j < |items| && items[j].0 == k;
      assert r[j] == (k, v);
      assert forall p :: p in r && p.0 != k ==> p in items by {
        forall p | p in r && p.0 != k ensures p in items {
          var i :| 0 <= i < |r| && r[i] == p;
          assert items[i] == p;
        }
      }
      r
    else
      var r := items + [(k, v)];
      assert r[|items|] == (k, v);
      r
  }

  /**
   * A repository forcing `search_query["filters"][k] = v` before `apply_filters`:
   * added to a non-empty filter dictionary, or the whole dictionary when the
   * filters are absent or empty.
   */
  function ForceFilter(search: SearchQuery, k: string, v: Value): (r: SearchQuery)
    ensures r.text == search.text && r.field == search.field
  {
    if search.filters != [] then search.(filters := SetItem(search.filters, k, v))
    else search.(filters := [(k, v)])
  }

  /** Whatever the caller's filters say, a forced filter on a known column holds on every row returned. */
  lemma ForcedFilterHolds(model: Model, q: Query, search: SearchQuery, orderBy: seq<(string, string)>, k: string, v: Value)
    requires k in model.attributes
    ensures forall x :: x in ApplyFilters(model, q, ForceFilter(search, k, v), orderBy).rows ==> x in q.rows && SqlEquals(Attr(x, k), v)
    ensures !v.Str? ==> forall x :: x in ApplyFilters(model, q, ForceFilter(search, k, v), orderBy).rows ==> Attr(x, k) == v
  {
    var forced := ForceFilter(search, k, v);
    var i :| 0 <= i < |forced.filters| && forced.filters[i] == (k, v);
    forall x | x in ApplyFilters(model, q, forced, orderBy).rows ensures SqlEquals(Attr(x, k), v) {
      assert FiltersMatch(model, forced.filters, x);
      assert forced.filters[i].0 in model.attributes;
    }
  }

  /** The caller's other filters still apply: forcing one filter only adds a constraint on its own column. */
  lemma ForcedFilterKeepsOthers(model: Model, search: SearchQuery, k: string, v: Value, x: Row)
    requires FiltersMatch(model, ForceFilter(search, k, v).filters, x)
    ensures forall p :: p in search.filters && p.0 != k && p.0 in model.attributes ==> SqlEquals(Attr(x, p.0), p.1)
  {
    var forced := ForceFilter(search, k, v).filters;
    forall p | p in search.filters && p.0 != k && p.0 in model.attributes ensures SqlEquals(Attr(x, p.0), p.1) {
      assert p in forced;
      var i :| 0 <= i < |forced| && forced[i] == p;
    }
  }

  /** With no search and no ordering the query comes back unchanged. */
  lemma ApplyFiltersIdentity(model: Model, q: Query)
    ensures ApplyFilters(model, q, NoSearch, []) == q
  {
  }
}
