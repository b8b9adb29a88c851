/**
 * The admin `/admin/hair-props` route: `GET` lists product lengths one page
 * of 20 at a time, optionally only the soft-deleted ones; `POST` creates a
 * product length from a `{name}` body.
 *
 * The list-and-count and create calls of the hair-props service are not
 * part of this model: they are parameters, and the handlers are modelled as
 * what they ask of the service and what they answer with what it returns.
 */
module HairPropsRoute {
  import opened Wrappers
  import opened JsValues
  import opened HairPropsModels

  /** The fixed page size of the list, used for both `skip` and `take`. */
  const PageSize: nat := 20

  /** The relation the list handler asks the service to load with each row. */
  const ListRelations: seq<string> := ["colors"]

  /** Why request validation rejected a request. */
  datatype ValidationError =
    | PageNotANumber
    | PageBelowMinimum(page: int)
    | BodyNotAnObject
    | NameNotAString
    | NameEmpty

  /** The list query after `productLengthsListQuerySchema.parse`. */
  datatype ListQuery = ListQuery(page: int, deleted: bool)

  /** `page: z.coerce.number().min(1).optional().default(1)` on the raw query value. */
  function ParsePage(raw: Option<string>): (r: Result<int, ValidationError>)
    ensures raw.None? ==> r == Ok(1)
    ensures r.Ok? ==> r.value >= 1
    ensures raw.Some? ==> (r.Ok? <==> NumberOf(raw.value).Int? && NumberOf(raw.value).value >= 1)
    ensures raw.Some? && r.Ok? ==> r.value == NumberOf(raw.value).value
  {
    match raw
    case None => Ok(1)
    case Some(s) =>
      match NumberOf(s)
      case NaN => Err(PageNotANumber)
      case Int(n) => if n < 1 then Err(PageBelowMinimum(n)) else Ok(n)
  }

  /** `deleted: z.coerce.boolean().optional().default(false)`: `Boolean(value)` when present. */
  function ParseDeleted(raw: Option<string>): (b: bool)
    ensures raw.None? ==> !b
    ensures raw.Some? ==> (b <==> raw.value != "")
  {
    match raw
    case None => false
    case Some(s) => StringTruthy(s)
  }

  /** The query value for `name`, absent when the query has no such key. */
  function QueryValue(query: map<string, string>, name: string): Option<string> {
    if name in query then Some(query[name]) else None
  }

  /** `productLengthsListQuerySchema.parse(req.query)`; unknown keys are ignored. */
  function ParseListQuery(query: map<string, string>): (r: Result<ListQuery, ValidationError>)
    ensures r.Ok? <==> ParsePage(QueryValue(query, "page")).Ok?
    ensures r.Ok? ==> r.value.page >= 1
    ensures r.Ok? ==> r.value.deleted == ParseDeleted(QueryValue(query, "deleted"))
  {
    match ParsePage(QueryValue(query, "page"))
    case Err(e) => Err(e)
    case Ok(page) => Ok(ListQuery(page, ParseDeleted(QueryValue(query, "deleted"))))
  }

  /** Rows to skip before page `page`: `20 * (page - 1)`. */
  function Skip(page: int): int {
    PageSize * (page - 1)
  }

  /** `Math.ceil(count / 20)`: the number of pages `count` rows fill. */
  function LastPage(count: nat): (lastPage: nat)
    ensures PageSize * lastPage >= count
    ensures lastPage > 0 ==> PageSize * (lastPage - 1) < count
    ensures count == 0 <==> lastPage == 0
  {
    (count + PageSize - 1) / PageSize
  }

  /** Row `row` (counted from 0) is in the window of page `page`. */
  predicate InWindow(row: int, page: int) {
    Skip(page) <= row < Skip(page) + PageSize
  }

  /** The condition `deleted_at: {$lte: now}`. */
  datatype DeletedFilter = DeletedAtMost(now: int)

  /** A row satisfies the filter when it was soft-deleted at or before `now`. */
  predicate MatchesFilter(row: ProductLength, filter: DeletedFilter) {
    row.deletedAt.Some? && row.deletedAt.value <= filter.now
  }

  /** The paging and soft-delete options passed to the service. */
  datatype ListConfig = ListConfig(skip: int, take: int, withDeleted: bool, relations: seq<string>)

  /** What `GET` asks of `listAndCountProductLengths`. */
  datatype ListRequest = ListRequest(filter: Option<DeletedFilter>, config: ListConfig)

  /** The service call `GET` makes for a parsed query at time `now`. */
  function ListRequestFor(q: ListQuery, now: int): (r: ListRequest)
    ensures r.filter.Some? <==> q.deleted
    ensures q.deleted ==> r.filter == Some(DeletedAtMost(now))
    ensures r.config.withDeleted == q.deleted
    ensures r.config.take == PageSize
    ensures r.config.relations == ListRelations
    ensures q.page >= 1 ==> r.config.skip >= 0
    ensures forall row :: row >= 0 ==> (r.config.skip <= row < r.config.skip + r.config.take <==> InWindow(row, q.page))
  {
    ListRequest(
      if q.deleted then Some(DeletedAtMost(now)) else None,
      ListConfig(Skip(q.page), PageSize, q.deleted, ListRelations))
  }

  /** The JSON body and status `GET` responds with. */
  datatype ListResponse = ListResponse(status: int, productLengths: seq<ProductLength>, count: nat, page: int, lastPage: nat)

  /**
   * `GET /admin/hair-props`. `listAndCount` stands for the service's
   * `listAndCountProductLengths`; `now` for `new Date()`.
   */
  function Get(query: map<string, string>, now: int,
               listAndCount: ListRequest -> (seq<ProductLength>, nat)): (r: Result<ListResponse, ValidationError>)
    ensures r.Err? <==> ParseListQuery(query).Err?
    ensures r.Ok? ==> r.value.status == 200
    ensures r.Ok? ==> r.value.page == ParseListQuery(query).value.page && r.value.page >= 1
    ensures r.Ok? ==>
      var (rows, count) := listAndCount(ListRequestFor(ParseListQuery(query).value, now));
      r.value.productLengths == rows && r.value.count == count
    ensures r.Ok? ==> PageSize * r.value.lastPage >= r.value.count
    ensures r.Ok? && r.value.lastPage > 0 ==> PageSize * (r.value.lastPage - 1) < r.value.count
  {
    match ParseListQuery(query)
    case Err(e) => Err(e)
    case Ok(q) =>
      var (rows, count) := listAndCount(ListRequestFor(q, now));
      Ok(ListResponse(200, rows, count, q.page, LastPage(count)))
  }

  /** The first page starts at the first row. */
  lemma FirstPageStartsAtZero()
    ensures Skip(1) == 0
  {
  }

  /** Consecutive pages are adjacent windows: one starts where the previous ends. */
  lemma WindowsAdjacent(page: int)
    ensures Skip(page + 1) == Skip(page) + PageSize
  {
  }

  /** Every row lies in the window of exactly one page, page `row / 20 + 1`. */
  lemma {:induction false} WindowOfRow(row: nat, page: int)
    ensures InWindow(row, page) <==> page == row / PageSize + 1
  {
    var p := row / PageSize + 1;
    assert InWindow(row, p);
    if page < p {
      assert Skip(page) + PageSize <= Skip(p);
    } else if page > p {
      assert Skip(page) >= Skip(p) + PageSize;
    }
  }

  /** Every one of `count` rows lies on a page from 1 to `LastPage(count)`. */
  lemma RowsFitInLastPage(count: nat, row: nat)
    requires row < count
    ensures 1 <= row / PageSize + 1 <= LastPage(count)
    ensures InWindow(row, row / PageSize + 1)
  {
    WindowOfRow(row, row / PageSize + 1);
  }

  /** A page beyond `LastPage(count)` starts past the last row, so it is empty. */
  lemma PagesBeyondLastAreEmpty(count: nat, page: int)
    requires page > LastPage(count)
    ensures Skip(page) >= count
  {
  }

  /** A JSON value, as `req.body` holds it. */
  datatype Json =
    | JNull
    | JBool(b: bool)
    | JNumber(n: int)
    | JString(s: string)
    | JArray(items: seq<Json>)
    | JObject(fields: map<string, Json>)

  /** The data `createProductLengthBodySchema` lets through. */
  datatype CreateProductLengthInput = CreateProductLengthInput(name: string)

  /** `createProductLengthBodySchema.parse`: an object whose `name` is a non-empty string. */
  function ValidateCreateBody(body: Json): (r: Result<CreateProductLengthInput, ValidationError>)
    ensures r.Ok? <==> body.JObject? && "name" in body.fields && body.fields["name"].JString?
                         && body.fields["name"].s != ""
    ensures r.Ok? ==> r.value.name == body.fields["name"].s
  {
    match body
    case JObject(fields) =>
      if "name" !in fields || !fields["name"].JString? then Err(NameNotAString)
      else if fields["name"].s == "" then Err(NameEmpty)
      else Ok(CreateProductLengthInput(fields["name"].s))
    case _ => Err(BodyNotAnObject)
  }

  /** Why `POST` failed. */
  datatype PostError = InvalidJson | Invalid(error: ValidationError)

  /** The status and record `POST` responds with. */
  datatype CreatedResponse = CreatedResponse(status: int, productLength: ProductLength)

  /**
   * `typeof req.body === 'string' ? JSON.parse(req.body) : req.body`: a
   * string body is decoded with `parseJson` (`None` when `JSON.parse`
   * throws); any other body is used as it is.
   */
  function Decoded(body: Json, parseJson: string -> Option<Json>): (d: Option<Json>)
    ensures !body.JString? ==> d == Some(body)
    ensures body.JString? ==> d == parseJson(body.s)
  {
    if body.JString? then parseJson(body.s) else Some(body)
  }

  /**
   * `POST /admin/hair-props`. `create` stands for the service's
   * `createProductLength`.
   */
  function Post(body: Json, parseJson: string -> Option<Json>,
                create: CreateProductLengthInput -> ProductLength): (r: Result<CreatedResponse, PostError>)
    ensures Decoded(body, parseJson).None? ==> r == Err(InvalidJson)
    ensures r.Ok? <==> Decoded(body, parseJson).Some? && ValidateCreateBody(Decoded(body, parseJson).value).Ok?
    ensures r.Ok? ==>
      r.value == CreatedResponse(201, create(ValidateCreateBody(Decoded(body, parseJson).value).value))
    ensures r.Ok? ==> r.value.status == 201
    ensures r.Ok? ==> (Decoded(body, parseJson).value.JObject? &&
      r.value.productLength == create(CreateProductLengthInput(Decoded(body, parseJson).value.fields["name"].s)))
    ensures Decoded(body, parseJson).Some? && ValidateCreateBody(Decoded(body, parseJson).value).Err? ==>
      r == Err(Invalid(ValidateCreateBody(Decoded(body, parseJson).value).error))
  {
    match Decoded(body, parseJson)
    case None => Err(InvalidJson)
    case Some(value) =>
      match ValidateCreateBody(value)
      case Err(e) => Err(Invalid(e))
      case Ok(input) => Ok(CreatedResponse(201, create(input)))
  }

  /** A body sent as JSON text is handled exactly like the object it decodes to. */
  lemma PostTextLikeObject(text: string, value: Json, parseJson: string -> Option<Json>,
                           create: CreateProductLengthInput -> ProductLength)
    requires parseJson(text) == Some(value)
    requires !value.JString?
    ensures Post(JString(text), parseJson, create) == Post(value, parseJson, create)
  {
  }

  /** `POST` of `{name}` creates a product length named `name` iff `name` is non-empty. */
  lemma PostNameBody(name: string, parseJson: string -> Option<Json>,
                     create: CreateProductLengthInput -> ProductLength)
    ensures var r := Post(JObject(map["name" := JString(name)]), parseJson, create);
      (r.Ok? <==> name != "") &&
      (r.Ok? ==> r.value == CreatedResponse(201, create(CreateProductLengthInput(name))))
  {
  }
}
