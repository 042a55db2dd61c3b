/** The listings routes of server/src/routes/listings.js: GET / builds a parameterised SQL
    query from the optional filters, GET /:id answers 404 unless an active row has that id,
    and POST / inserts a listing owned by the authenticated caller. The listings table is a
    map from id to row; `storeUp` says whether the database answers. */
module ListingRoutes {
  import opened Wrappers
  import opened Strings
  import opened Api
  import OwnerGuard

  // ---------------------------------------------------------------------------------
  // GET /: the query builder

  /** The query string fields `category`, `minPrice`, `maxPrice`, `brand` and `sort`, each
      None when absent. */
  datatype ListingQuery = ListingQuery(category: Option<string>, minPrice: Option<string>,
                                       maxPrice: Option<string>, brand: Option<string>,
                                       sort: Option<string>)

  /** A query-string value is truthy when present and not empty. */
  predicate Present(v: Option<string>) {
    v.Some? && v.value != ""
  }

  datatype FilterKind = CategoryEq | MinPrice | MaxPrice | BrandLike

  /** A filter taken from the query string: which one, and its raw value. */
  datatype Filter = Filter(kind: FilterKind, value: string)

  /** A bound parameter: text, or an amount in cents. */
  datatype Param = Text(text: string) | Cents(cents: int)

  /** The order the handler appends filters in. */
  function Rank(k: FilterKind): nat {
    match k
    case CategoryEq => 0
    case MinPrice => 1
    case MaxPrice => 2
    case BrandLike => 3
  }

  /** The query-string field a filter reads. */
  function FieldOf(q: ListingQuery, k: FilterKind): Option<string> {
    match k
    case CategoryEq => q.category
    case MinPrice => q.minPrice
    case MaxPrice => q.maxPrice
    case BrandLike => q.brand
  }

  function Optional(q: ListingQuery, k: FilterKind): seq<Filter> {
    if Present(FieldOf(q, k)) then [Filter(k, FieldOf(q, k).value)] else []
  }

  /** The filters a request applies: the block of each field in the handler's order. */
  function ActiveFilters(q: ListingQuery): seq<Filter> {
    Optional(q, CategoryEq) + Optional(q, MinPrice) + Optional(q, MaxPrice) + Optional(q, BrandLike)
  }

  /** The order the handler visits the fields in. */
  const FieldOrder: seq<FilterKind> := [CategoryEq, MinPrice, MaxPrice, BrandLike]

  predicate StrictlyRanked(ks: seq<FilterKind>) {
    forall i, j :: 0 <= i < j < |ks| ==> Rank(ks[i]) < Rank(ks[j])
  }

  /** The blocks of the fields `ks`, visited in turn. */
  function FiltersOf(q: ListingQuery, ks: seq<FilterKind>): seq<Filter>
    decreases |ks|
  {
    if ks == [] then [] else Optional(q, ks[0]) + FiltersOf(q, ks[1..])
  }

  lemma ActiveFiltersVisitFieldOrder(q: ListingQuery)
    ensures ActiveFilters(q) == FiltersOf(q, FieldOrder)
  {
    var o := FieldOrder;
    assert o[1..][1..][1..][1..] == [];
    assert FiltersOf(q, o[1..][1..][1..]) == Optional(q, BrandLike);
    assert FiltersOf(q, o[1..][1..]) == Optional(q, MaxPrice) + Optional(q, BrandLike);
    assert FiltersOf(q, o[1..]) == Optional(q, MinPrice) + Optional(q, MaxPrice) + Optional(q, BrandLike);
  }

  lemma EveryFieldVisited()
    ensures forall k: FilterKind :: k in FieldOrder
  {
    forall k: FilterKind ensures k in FieldOrder {
      match k
      case CategoryEq => assert FieldOrder[0] == k;
      case MinPrice => assert FieldOrder[1] == k;
      case MaxPrice => assert FieldOrder[2] == k;
      case BrandLike => assert FieldOrder[3] == k;
    }
  }

  lemma {:induction false} FiltersOfFields(q: ListingQuery, ks: seq<FilterKind>)
    ensures forall i :: 0 <= i < |FiltersOf(q, ks)| ==>
              FieldOf(q, FiltersOf(q, ks)[i].kind) == Some(FiltersOf(q, ks)[i].value)
              && FiltersOf(q, ks)[i].value != ""
    decreases |ks|
  {
    if ks != [] {
      var o, rest := Optional(q, ks[0]), FiltersOf(q, ks[1..]);
      var fs: seq<Filter> := o + rest;
      FiltersOfFields(q, ks[1..]);
      forall i | 0 <= i < |fs|
        ensures FieldOf(q, fs[i].kind) == Some(fs[i].value) && fs[i].value != ""
      {
        if i >= |o| {
          assert fs[i] == rest[i - |o|];
        } else {
          assert fs[i] == o[0] == Filter(ks[0], FieldOf(q, ks[0]).value);
        }
      }
    }
  }

  lemma {:induction false} FiltersOfComplete(q: ListingQuery, ks: seq<FilterKind>)
    ensures forall k | k in ks :: Present(FieldOf(q, k)) ==> Filter(k, FieldOf(q, k).value) in FiltersOf(q, ks)
    decreases |ks|
  {
    if ks != [] {
      FiltersOfComplete(q, ks[1..]);
      assert forall k | k in ks :: k == ks[0] || k in ks[1..];
    }
  }

  lemma {:induction false} FiltersOfRanked(q: ListingQuery, ks: seq<FilterKind>)
    requires StrictlyRanked(ks)
    ensures |ks| > 0 ==>
              forall i :: 0 <= i < |FiltersOf(q, ks)| ==> Rank(ks[0]) <= Rank(FiltersOf(q, ks)[i].kind)
    ensures forall i, j :: 0 <= i < j < |FiltersOf(q, ks)| ==>
              Rank(FiltersOf(q, ks)[i].kind) < Rank(FiltersOf(q, ks)[j].kind)
    decreases |ks|
  {
    if ks != [] {
      var o, rest := Optional(q, ks[0]), FiltersOf(q, ks[1..]);
      var fs := o + rest;
      FiltersOfRanked(q, ks[1..]);
      assert |ks| > 1 ==> Rank(ks[0]) < Rank(ks[1..][0]);
      assert rest != [] ==> |ks| > 1 by {
        if |ks| == 1 { assert ks[1..] == []; }
      }
      assert forall i :: 0 <= i < |o| ==> o[i].kind == ks[0];
      forall i | 0 <= i < |fs| && i >= |o| ensures fs[i] == rest[i - |o|] && Rank(ks[0]) < Rank(fs[i].kind) {
      }
      forall i | 0 <= i < |fs| ensures Rank(ks[0]) <= Rank(fs[i].kind) {
        if i < |o| { assert fs[i] == o[i]; }
      }
      forall i, j | 0 <= i < j < |fs| ensures Rank(fs[i].kind) < Rank(fs[j].kind) {
        if i >= |o| {
          assert fs[i] == rest[i - |o|] && fs[j] == rest[j - |o|];
        } else {
          assert fs[i] == o[i];
        }
      }
    }
  }

  /** The filters a request applies are each present field once, with its value, in the
      order category, minPrice, maxPrice, brand; absent and empty fields contribute
      nothing. */
  lemma ActiveFiltersSpec(q: ListingQuery)
    ensures var fs := ActiveFilters(q);
            && (forall i :: 0 <= i < |fs| ==>
                  FieldOf(q, fs[i].kind) == Some(fs[i].value) && fs[i].value != "")
            && (forall k: FilterKind :: Present(FieldOf(q, k)) ==> Filter(k, FieldOf(q, k).value) in fs)
            && (forall i, j :: 0 <= i < j < |fs| ==> Rank(fs[i].kind) < Rank(fs[j].kind))
  {
    ActiveFiltersVisitFieldOrder(q);
    FiltersOfFields(q, FieldOrder);
    EveryFieldVisited();
    FiltersOfComplete(q, FieldOrder);
    FiltersOfRanked(q, FieldOrder);
  }

  /** The text a filter appends before its placeholder. */
  function ClausePrefix(k: FilterKind): string {
    match k
    case CategoryEq => " AND l.category = "
    case MinPrice => " AND l.price_cents >= "
    case MaxPrice => " AND l.price_cents <= "
    case BrandLike => " AND LOWER(l.brand) LIKE "
  }

  /** A filter of the given kind bound to placeholder `$placeholder`. */
  datatype Bound = Bound(kind: FilterKind, placeholder: nat)

  /** The filters of `fs`, in order, filter `i` bound to placeholder `$(k + i)`. */
  function Numbered(fs: seq<Filter>, k: nat): (cs: seq<Bound>)
    ensures |cs| == |fs|
    ensures forall i :: 0 <= i < |fs| ==> cs[i] == Bound(fs[i].kind, k + i)
    decreases |fs|
  {
    if fs == [] then []
    else
      var init := fs[..|fs| - 1];
      var cs := Numbered(init, k) + [Bound(fs[|fs| - 1].kind, k + |fs| - 1)];
      assert forall i :: 0 <= i < |init| ==> init[i] == fs[i];
      cs
  }

  /** The placeholders `$k`, `$(k+1)`, ... of the numbered filters are pairwise distinct as
      text, so no two clauses name the same parameter. */
  lemma NumberedPlaceholdersDistinct(fs: seq<Filter>, k: nat)
    ensures forall i, j :: 0 <= i < j < |fs| ==>
              NatToString(Numbered(fs, k)[i].placeholder)
              != NatToString(Numbered(fs, k)[j].placeholder)
  {
    var cs := Numbered(fs, k);
    forall i, j | 0 <= i < j < |fs|
      ensures NatToString(cs[i].placeholder) != NatToString(cs[j].placeholder)
    {
      NatToStringInjective(cs[i].placeholder, cs[j].placeholder);
    }
  }

  /** `head` followed by the clause of each bound filter of `cs` in turn: its text, `$`
      and its placeholder number, appended the way the handler's `+=` appends them. */
  function WithClauses(head: string, cs: seq<Bound>): string
    decreases |cs|
  {
    if cs == [] then head
    else
      var b := cs[|cs| - 1];
      WithClauses(head, cs[..|cs| - 1]) + ClausePrefix(b.kind) + "$" + NatToString(b.placeholder)
  }

  /** The parameter a filter binds. The price filters go through `toCents`, which stands
      for `Math.round(parseFloat(v) * 100)`; the brand is matched case-insensitively
      anywhere in the column. */
  function FilterParam(f: Filter, toCents: string -> int): (p: Param)
    ensures p.Cents? <==> f.kind == MinPrice || f.kind == MaxPrice
    ensures p.Cents? ==> p.cents == toCents(f.value)
    ensures f.kind == CategoryEq ==> p == Text(f.value)
    ensures f.kind == BrandLike ==>
              && p.Text? && |p.text| == |f.value| + 2
              && p.text[0] == '%' && p.text[|p.text| - 1] == '%'
              && forall i :: 0 <= i < |f.value| ==> p.text[i + 1] == LowerChar(f.value[i])
  {
    match f.kind
    case CategoryEq => Text(f.value)
    case MinPrice => Cents(toCents(f.value))
    case MaxPrice => Cents(toCents(f.value))
    case BrandLike => Text("%" + ToLower(f.value) + "%")
  }

  /** The fixed head of the query: the active listings joined with their reviews. */
  const BaseQuery: string :=
    "\n    SELECT \n      l.id,\n      l.title,\n      l.price_cents,\n      l.condition,\n"
    + "      l.category,\n      l.brand,\n      l.image_url,\n      l.technical_specs,\n"
    + "      l.created_at,\n      COALESCE(AVG(r.rating), 0) AS avg_rating,\n"
    + "      COUNT(r.id) AS review_count\n    FROM listings l\n"
    + "    LEFT JOIN reviews r ON r.listing_id = l.id\n    WHERE l.is_active = TRUE\n  "

  const GroupBy: string := " GROUP BY l.id"

  /** The ORDER BY the `sort` field selects: price ascending, price descending, or newest
      first for any other value, absent included. */
  function OrderBy(sort: Option<string>): (r: string)
    ensures |r| > |OrderByKeyword| && r[..|OrderByKeyword|] == OrderByKeyword
    ensures r == NewestFirst <==> sort != Some("price_asc") && sort != Some("price_desc")
    ensures sort == Some("price_asc") ==> r == " ORDER BY l.price_cents ASC"
    ensures sort == Some("price_desc") ==> r == " ORDER BY l.price_cents DESC"
  {
    if sort == Some("price_asc") then " ORDER BY l.price_cents ASC"
    else if sort == Some("price_desc") then " ORDER BY l.price_cents DESC"
    else NewestFirst
  }

  const OrderByKeyword: string := " ORDER BY "

  /** The default order: newest listings first. */
  const NewestFirst: string := " ORDER BY l.created_at DESC"

  lemma WithClausesSnoc(head: string, cs: seq<Bound>, b: Bound)
    ensures WithClauses(head, cs + [b])
            == WithClauses(head, cs) + ClausePrefix(b.kind) + "$" + NatToString(b.placeholder)
  {
    assert (cs + [b])[..|cs|] == cs;
  }

  /** Clauses only ever extend the head: the built query starts with the base query, so
      `l.is_active = TRUE` always applies and filters can only narrow it. */
  lemma {:induction false} WithClausesExtends(head: string, cs: seq<Bound>)
    ensures |WithClauses(head, cs)| >= |head|
    ensures WithClauses(head, cs)[..|head|] == head
    decreases |cs|
  {
    if cs != [] {
      var b := cs[|cs| - 1];
      var w := WithClauses(head, cs[..|cs| - 1]);
      WithClausesExtends(head, cs[..|cs| - 1]);
      KeepsPrefix(head, w, ClausePrefix(b.kind));
      KeepsPrefix(head, w + ClausePrefix(b.kind), "$");
      KeepsPrefix(head, w + ClausePrefix(b.kind) + "$", NatToString(b.placeholder));
    }
  }

  lemma KeepsPrefix(head: string, w: string, x: string)
    requires |w| >= |head| && w[..|head|] == head
    ensures |w + x| >= |head| && (w + x)[..|head|] == head
  {
    assert (w + x)[..|head|] == w[..|head|];
  }

  lemma NumberedSnoc(fs: seq<Filter>, f: Filter, k: nat)
    ensures Numbered(fs + [f], k) == Numbered(fs, k) + [Bound(f.kind, k + |fs|)]
  {
    assert (fs + [f])[..|fs|] == fs;
  }

  /** `query` holds `head` and the clauses of the filters `done`, numbered from `$1`. */
  ghost predicate QueryBuilt(head: string, query: string, done: seq<Filter>) {
    query == WithClauses(head, Numbered(done, 1))
  }

  /** `params` holds the parameters of the filters `done`, in order. */
  ghost predicate ParamsBuilt(params: seq<Param>, done: seq<Filter>, toCents: string -> int) {
    |params| == |done| && forall i :: 0 <= i < |done| ==> params[i] == FilterParam(done[i], toCents)
  }

  /** Appending a filter's clause, bound to the next placeholder. */
  lemma AppendClause(head: string, query: string, done: seq<Filter>, f: Filter)
    requires QueryBuilt(head, query, done)
    ensures QueryBuilt(head, query + ClausePrefix(f.kind) + "$" + NatToString(|done| + 1), done + [f])
  {
    NumberedSnoc(done, f, 1);
    WithClausesSnoc(head, Numbered(done, 1), Bound(f.kind, |done| + 1));
  }

  /** One `if (field) { query += ...; params.push(...) }` block of the handler, for the
      field of filter kind `k`: a present field appends its clause, bound to the next
      placeholder, and its parameter, and advances the placeholder counter; an absent or
      empty one changes nothing. */
  method ApplyFilter(q: ListingQuery, k: FilterKind, toCents: string -> int, ghost head: string,
                     ghost done: seq<Filter>, query: string, params: seq<Param>, paramIndex: nat)
    returns (query': string, params': seq<Param>, paramIndex': nat)
    requires QueryBuilt(head, query, done) && ParamsBuilt(params, done, toCents)
    requires paramIndex == |done| + 1
    ensures QueryBuilt(head, query', done + Optional(q, k))
    ensures ParamsBuilt(params', done + Optional(q, k), toCents)
    ensures paramIndex' == |done + Optional(q, k)| + 1
  {
    query', params', paramIndex' := query, params, paramIndex;
    if Present(FieldOf(q, k)) {
      var value := FieldOf(q, k).value;
      AppendClause(head, query, done, Filter(k, value));
      query' := query' + ClausePrefix(k) + "$" + NatToString(paramIndex');
      paramIndex' := paramIndex' + 1;
      params' := params' + [FilterParam(Filter(k, value), toCents)];
    } else {
      assert done + Optional(q, k) == done;
    }
  }

  /** GET /'s query building: the base query, one clause per active filter with
      consecutively numbered placeholders, the grouping and the ordering, and the
      parameters in the same order, so placeholder `$(i + 1)` is bound to `params[i]`. */
  method BuildListingsQuery(q: ListingQuery, toCents: string -> int)
    returns (query: string, params: seq<Param>)
    ensures var fs := ActiveFilters(q);
            && query == WithClauses(BaseQuery, Numbered(fs, 1)) + GroupBy + OrderBy(q.sort)
            && |params| == |fs|
            && forall i :: 0 <= i < |fs| ==> params[i] == FilterParam(fs[i], toCents)
  {
    query := BaseQuery;
    params := [];
    var paramIndex: nat := 1;
    ghost var done: seq<Filter> := [];

    query, params, paramIndex := ApplyFilter(q, CategoryEq, toCents, BaseQuery, done, query, params, paramIndex);
    done := done + Optional(q, CategoryEq);
    query, params, paramIndex := ApplyFilter(q, MinPrice, toCents, BaseQuery, done, query, params, paramIndex);
    done := done + Optional(q, MinPrice);
    query, params, paramIndex := ApplyFilter(q, MaxPrice, toCents, BaseQuery, done, query, params, paramIndex);
    done := done + Optional(q, MaxPrice);
    query, params, paramIndex := ApplyFilter(q, BrandLike, toCents, BaseQuery, done, query, params, paramIndex);
    done := done + Optional(q, BrandLike);
    assert done == ActiveFilters(q);

    query := query + GroupBy;

    if q.sort == Some("price_asc") {
      query := query + " ORDER BY l.price_cents ASC";
    } else if q.sort == Some("price_desc") {
      query := query + " ORDER BY l.price_cents DESC";
    } else {
      query := query + " ORDER BY l.created_at DESC";
    }
  }

  /** A request without filters runs the base query with no clause and no parameter. */
  lemma NoFiltersNoClauses(q: ListingQuery)
    requires !Present(q.category) && !Present(q.minPrice) && !Present(q.maxPrice) && !Present(q.brand)
    ensures ActiveFilters(q) == []
    ensures WithClauses(BaseQuery, Numbered(ActiveFilters(q), 1)) == BaseQuery
  {
  }

  /** Every filter present: four filters bound to `$1` to `$4` in the fixed order. */
  lemma AllFiltersNumbered(q: ListingQuery)
    requires Present(q.category) && Present(q.minPrice) && Present(q.maxPrice) && Present(q.brand)
    ensures Numbered(ActiveFilters(q), 1)
            == [Bound(CategoryEq, 1), Bound(MinPrice, 2), Bound(MaxPrice, 3), Bound(BrandLike, 4)]
  {
  }

  // ---------------------------------------------------------------------------------
  // Rows, GET /:id and POST /

  /** A row of the listings table; the optional columns are None when NULL. */
  datatype ListingRow = ListingRow(id: int, sellerId: int, title: string, priceCents: int,
                                   condition: string, category: string,
                                   brand: Option<string>, technicalSpecs: Option<string>,
                                   imageUrl: Option<string>, isActive: bool, createdAt: int)

  const NotFoundMessage: string := "Listing not found"
  const FetchErrorMessage: string := "Error fetching listing"
  const MissingFieldsMessage: string := "Missing required fields."
  const CreateErrorMessage: string := "Server error creating listing."

  datatype Lookup = Found(listing: ListingRow) | NotShown(reply: Reply)

  /** GET /:id. `id` is the route parameter as PostgreSQL casts it, None when the cast fails
      (the query then fails, which is a 500 like any other store error). Rows that are not
      active are answered as missing. */
  function GetListing(rows: map<int, ListingRow>, id: Option<int>, storeUp: bool): (r: Lookup)
    ensures r.Found? <==> storeUp && id.Some? && id.value in rows && rows[id.value].isActive
    ensures r.Found? ==> r.listing == rows[id.value]
    ensures r == NotShown(Reply(404, NotFoundMessage)) <==>
              storeUp && id.Some? && (id.value !in rows || !rows[id.value].isActive)
    ensures r.NotShown? && r.reply.status != 404 ==> r.reply == Reply(500, FetchErrorMessage)
  {
    if !storeUp || id.None? then NotShown(Reply(500, FetchErrorMessage))
    else if id.value !in rows || !rows[id.value].isActive then NotShown(Reply(404, NotFoundMessage))
    else Found(rows[id.value])
  }

  /** The JSON body of POST /, each field None when absent. A `seller_id` in the body is
      carried along only to show that it is ignored. */
  datatype ListingBody = ListingBody(title: Option<string>, priceCents: Option<int>,
                                     condition: Option<string>, category: Option<string>,
                                     brand: Option<string>, technicalSpecs: Option<string>,
                                     imageUrl: Option<string>, sellerId: Option<int>)

  /** `!title || !price_cents || !category`: a missing or empty title or category, or a
      missing or zero price. */
  predicate MissingRequired(b: ListingBody) {
    !Present(b.title) || b.priceCents.None? || b.priceCents.value == 0 || !Present(b.category)
  }

  /** The values the `condition` column's CHECK constraint admits. */
  const Conditions: set<string> := {"new", "like_new", "good", "fair"}

  /** `condition` is NOT NULL and checked against `Conditions`: an absent or other value
      makes the insert fail. */
  predicate ConditionAccepted(c: Option<string>) {
    c.Some? && c.value in Conditions
  }

  datatype CreateAnswer = Created(listing: ListingRow) | NotCreated(reply: Reply)

  /** The seller of every listing by id, what the ownership guard looks up. */
  function Sellers(rows: map<int, ListingRow>): (m: map<int, int>)
    ensures m.Keys == rows.Keys
    ensures forall id | id in rows :: m[id] == rows[id].sellerId
  {
    map id | id in rows :: rows[id].sellerId
  }

  /** Every row is stored under its own id, and ids are below the next one the sequence
      hands out. */
  ghost predicate ListingsInv(rows: map<int, ListingRow>, nextId: int) {
    forall id | id in rows :: rows[id].id == id && id < nextId
  }

  /** The creator of a listing passes the ownership guard for it, and nobody else does. */
  lemma CreatorOwnsListing(rows: map<int, ListingRow>, row: ListingRow, user: Identity,
                           other: Identity)
    requires row.sellerId == user.id && other.id != user.id
    ensures OwnerGuard.RequireOwner(Some(user), Some(row.id), Some(Sellers(rows[row.id := row])))
            == OwnerGuard.Next
    ensures OwnerGuard.RequireOwner(Some(other), Some(row.id), Some(Sellers(rows[row.id := row])))
            == OwnerGuard.Halt(Reply(403, OwnerGuard.ForbiddenMessage))
  {
    var s := Sellers(rows[row.id := row]);
    assert row.id in s && s[row.id] == row.sellerId;
  }

  /** A listing just created is shown by GET /:id. */
  lemma CreatedListingIsShown(rows: map<int, ListingRow>, row: ListingRow)
    requires row.isActive
    ensures GetListing(rows[row.id := row], Some(row.id), true) == Found(row)
  {
  }

  class ListingTable {
    var rows: map<int, ListingRow>
    /** The next value of the `id` sequence. */
    var nextId: int

    ghost predicate Valid()
      reads this
    {
      ListingsInv(rows, nextId)
    }

    constructor ()
      ensures Valid() && rows == map[] && nextId == 1
    {
      rows := map[];
      nextId := 1;
    }

    /** POST /, behind the bearer-token guard, so `user` is the `req.user` it attached:
        400 with nothing inserted when a required field is missing, 500 when the insert
        fails (the store is down or the column constraint on `condition` refuses the value),
        otherwise 201 with the new active row, whose seller is the caller. */
    method Create(user: Identity, body: ListingBody, storeUp: bool, now: int)
      returns (r: CreateAnswer)
      requires Valid()
      modifies this
      ensures Valid()
      ensures r.Created? <==> !MissingRequired(body) && ConditionAccepted(body.condition) && storeUp
      ensures r.Created? ==>
                && r.listing == ListingRow(old(nextId), user.id, body.title.value,
                                           body.priceCents.value, body.condition.value,
                                           body.category.value, body.brand,
                                           body.technicalSpecs, body.imageUrl, true, now)
                && old(nextId) !in old(rows)
                && rows == old(rows)[old(nextId) := r.listing] && nextId == old(nextId) + 1
      ensures r.NotCreated? ==> rows == old(rows) && nextId == old(nextId)
      ensures r.NotCreated? ==>
                r.reply == if MissingRequired(body) then Reply(400, MissingFieldsMessage)
                           else Reply(500, CreateErrorMessage)
    {
      var sellerId := user.id;
      if !Present(body.title) || body.priceCents.None? || body.priceCents.value == 0
         || !Present(body.category)
      {
        return NotCreated(Reply(400, MissingFieldsMessage));
      }
      if !storeUp || !ConditionAccepted(body.condition) {
        return NotCreated(Reply(500, CreateErrorMessage));
      }
      var row := ListingRow(nextId, sellerId, body.title.value, body.priceCents.value,
                            body.condition.value, body.category.value, body.brand,
                            body.technicalSpecs, body.imageUrl, true, now);
      rows := rows[nextId := row];
      nextId := nextId + 1;
      return Created(row);
    }
  }
}
