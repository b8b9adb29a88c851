/**
 * The admin "Product Lengths" list page: it keeps the current page and the
 * "show deleted" switch in the URL's search parameters, fetches the matching
 * page of the list, and drives the table's pagination and row actions.
 *
 * `URLSearchParams` is modelled as a map from name to value: the page only
 * ever reads, sets and deletes single-valued keys.
 */
module HairPropsPage {
  import opened Wrappers
  import opened JsValues
  import opened HairPropsModels
  import HairPropsRoute

  /** A mutable set of URL search parameters (`URLSearchParams`). */
  class SearchParams {
    var entries: map<string, string>

    constructor (entries: map<string, string>)
      ensures this.entries == entries
    {
      this.entries := entries;
    }

    /** `new URLSearchParams(prev)`: an independent copy. */
    constructor Copy(prev: SearchParams)
      ensures entries == prev.entries
    {
      entries := prev.entries;
    }

    function Has(name: string): bool
      reads this
    {
      name in entries
    }

    method Set(name: string, value: string)
      modifies this
      ensures entries == old(entries)[name := value]
    {
      entries := entries[name := value];
    }

    method Delete(name: string)
      modifies this
      ensures entries == old(entries) - {name}
    {
      entries := entries - {name};
    }
  }

  /** `searchParams.get(name)`: `null` when absent. */
  function Get(params: map<string, string>, name: string): Option<string> {
    if name in params then Some(params[name]) else None
  }

  /** `Number(searchParams.get('page')) || 1`: the page the list shows. */
  function CurrentPage(params: map<string, string>): (page: int)
    ensures page != 0
    ensures !Truthy(NumberOfNullable(Get(params, "page"))) ==> page == 1
    ensures Truthy(NumberOfNullable(Get(params, "page"))) ==> page == NumberOfNullable(Get(params, "page")).value
  {
    var n := NumberOfNullable(Get(params, "page"));
    if Truthy(n) then n.value else 1
  }

  /** `searchParams.has('deleted')`: whether soft-deleted lengths are listed. */
  predicate ShowsDeleted(params: map<string, string>) {
    "deleted" in params
  }

  /** The parameters `setPage(page)` leaves: `page` set to `page.toString()`, nothing else changed. */
  function WithPage(params: map<string, string>, page: int): (r: map<string, string>)
    ensures r.Keys == params.Keys + {"page"}
    ensures r["page"] == IntToString(page)
    ensures forall k :: k in params && k != "page" ==> r[k] == params[k]
  {
    params["page" := IntToString(page)]
  }

  /**
   * The parameters `toggleDeleted()` leaves: the `deleted` key flipped
   * between absent and present (set to the empty string), `page` removed,
   * every other key unchanged.
   */
  function Toggled(params: map<string, string>): (r: map<string, string>)
    ensures ShowsDeleted(r) <==> !ShowsDeleted(params)
    ensures ShowsDeleted(r) ==> r["deleted"] == ""
    ensures "page" !in r
    ensures forall k :: k != "page" && k != "deleted" ==> (k in r <==> k in params)
    ensures forall k :: k in r && k != "deleted" ==> r[k] == params[k]
  {
    var withoutPage := params - {"page"};
    if "deleted" !in params then withoutPage["deleted" := ""] else withoutPage - {"deleted"}
  }

  /** `setPage`: copies the current parameters and sets `page` on the copy. */
  method SetPage(prev: SearchParams, page: int) returns (next: SearchParams)
    ensures fresh(next)
    ensures next.entries == WithPage(prev.entries, page)
  {
    next := new SearchParams.Copy(prev);
    next.Set("page", IntToString(page));
  }

  /** `toggleDeleted`: copies the current parameters, drops `page` and flips `deleted` on the copy. */
  method ToggleDeleted(prev: SearchParams) returns (next: SearchParams)
    ensures fresh(next)
    ensures next.entries == Toggled(prev.entries)
  {
    next := new SearchParams.Copy(prev);
    if prev.Has("page") {
      next.Delete("page");
    }
    if !prev.Has("deleted") {
      next.Set("deleted", "");
    } else {
      next.Delete("deleted");
    }
  }

  /** Reading the page back after `setPage(page)` gives `page`, except that 0 reads as 1. */
  lemma PageAfterSetPage(params: map<string, string>, page: int)
    ensures CurrentPage(WithPage(params, page)) == if page == 0 then 1 else page
  {
    NumberOfIntToString(page);
  }

  /** Toggling twice restores whether deleted lengths are shown, and goes back to the first page. */
  lemma ToggleTwice(params: map<string, string>)
    ensures ShowsDeleted(Toggled(Toggled(params))) == ShowsDeleted(params)
    ensures CurrentPage(Toggled(Toggled(params))) == 1
    ensures !ShowsDeleted(params) || params["deleted"] == "" ==>
      Toggled(Toggled(params)) == params - {"page"}
  {
    var r := Toggled(Toggled(params));
    if !ShowsDeleted(params) || params["deleted"] == "" {
      assert r.Keys == (params - {"page"}).Keys;
    }
  }

  /** The path of the list endpoint. */
  const ListPath := "/admin/hair-props"

  /** The query string of the list request: `page=<page>` and `&deleted=true` when deleted rows are shown. */
  function ListQueryString(page: int, deleted: bool): string {
    "page=" + IntToString(page) + if deleted then "&deleted=true" else ""
  }

  /** The URL the page fetches for `page` and the `deleted` switch. */
  function ListUrl(page: int, deleted: bool): (url: string)
    ensures url == ListPath + "?" + ListQueryString(page, deleted)
  {
    ListPath + "?page=" + IntToString(page) + if deleted then "&deleted=true" else ""
  }

  /**
   * The URL the page fetches for its current parameters. The list route
   * reads its query as the page shown and the switch's state whenever that
   * page is at least 1, and rejects it otherwise.
   */
  function ListUrlFor(params: map<string, string>): (url: string)
    ensures |url| > |ListPath| + 1 && url[..|ListPath| + 1] == ListPath + "?"
    ensures CurrentPage(params) >= 1 ==>
      HairPropsRoute.ParseListQuery(QueryParams(url[|ListPath| + 1..]))
        == Ok(HairPropsRoute.ListQuery(CurrentPage(params), ShowsDeleted(params)))
    ensures CurrentPage(params) < 1 ==> HairPropsRoute.ParseListQuery(QueryParams(url[|ListPath| + 1..])).Err?
  {
    var page, deleted := CurrentPage(params), ShowsDeleted(params);
    var url := ListUrl(page, deleted);
    assert url[|ListPath| + 1..] == ListQueryString(page, deleted);
    ListUrlParsesBack(page, deleted);
    url
  }

  /** The first index of `c` in `s`. */
  function IndexOf(s: string, c: char): (r: Option<nat>)
    ensures r.Some? ==> r.value < |s| && s[r.value] == c && c !in s[..r.value]
    ensures r.None? ==> c !in s
  {
    if s == [] then None
    else if s[0] == c then Some(0)
    else match IndexOf(s[1..], c)
      case None => None
      case Some(i) => Some(i + 1)
  }

  /** `s` split at every `&`. */
  function SplitPairs(s: string): (pieces: seq<string>)
    ensures |pieces| >= 1
    decreases |s|
  {
    match IndexOf(s, '&')
    case None => [s]
    case Some(i) => [s[..i]] + SplitPairs(s[i + 1..])
  }

  /** One `name=value` piece; a piece without `=` has the empty value. */
  function NameValue(piece: string): (string, string) {
    match IndexOf(piece, '=')
    case None => (piece, "")
    case Some(i) => (piece[..i], piece[i + 1..])
  }

  /** The pieces as a map; a later piece with the same name wins. */
  function PairsToMap(pieces: seq<string>): map<string, string> {
    if pieces == [] then map[]
    else
      var (name, value) := NameValue(pieces[|pieces| - 1]);
      PairsToMap(pieces[..|pieces| - 1])[name := value]
  }

  /**
   * How the server reads a query string into `req.query`, for strings
   * without percent-escapes, `+`, brackets or repeated names (the only
   * kind `ListQueryString` builds).
   */
  function QueryParams(query: string): map<string, string> {
    PairsToMap(SplitPairs(query))
  }

  /** The first `c` in `a + [c] + b` is at index `|a|` when `a` holds no `c`. */
  lemma {:induction false} IndexOfAfter(a: string, c: char, b: string)
    requires c !in a
    ensures IndexOf(a + [c] + b, c) == Some(|a|)
  {
    if a != [] {
      assert (a + [c] + b)[1..] == a[1..] + [c] + b;
      IndexOfAfter(a[1..], c, b);
    }
  }

  /** A piece without `&` is not split. */
  lemma SplitSingle(s: string)
    requires '&' !in s
    ensures SplitPairs(s) == [s]
  {
  }

  /** Splitting at the first `&` yields the text before it, then the split of the rest. */
  lemma SplitFirst(a: string, b: string)
    requires '&' !in a
    ensures SplitPairs(a + ['&'] + b) == [a] + SplitPairs(b)
  {
    var s := a + ['&'] + b;
    IndexOfAfter(a, '&', b);
    assert s[..|a|] == a;
    assert s[|a| + 1..] == b;
  }

  /** `name=value` with no `=` in `name` reads as `(name, value)`. */
  lemma NameValueOf(name: string, value: string)
    requires '=' !in name
    ensures NameValue(name + ['='] + value) == (name, value)
  {
    var s := name + ['='] + value;
    IndexOfAfter(name, '=', value);
    assert s[..|name|] == name;
    assert s[|name| + 1..] == value;
  }

  /** The decimal text of an integer holds neither `&` nor `=`. */
  lemma IntToStringPlain(n: int)
    ensures '&' !in IntToString(n) && '=' !in IntToString(n)
  {
  }

  /** The query of a single `name=value` piece. */
  lemma QueryParamsOne(name: string, value: string)
    requires '=' !in name && '&' !in name && '&' !in value
    ensures QueryParams(name + ['='] + value) == map[name := value]
  {
    var piece := name + ['='] + value;
    SplitSingle(piece);
    NameValueOf(name, value);
    assert [piece][..0] == [];
    assert PairsToMap([piece]) == PairsToMap([])[name := value];
  }

  /** The query of two `name=value` pieces joined by `&`. */
  lemma QueryParamsTwo(name1: string, value1: string, name2: string, value2: string)
    requires '=' !in name1 && '&' !in name1 && '&' !in value1
    requires '=' !in name2 && '&' !in name2 && '&' !in value2
    ensures QueryParams(name1 + ['='] + value1 + ['&'] + name2 + ['='] + value2)
      == map[name1 := value1][name2 := value2]
  {
    var first := name1 + ['='] + value1;
    var second := name2 + ['='] + value2;
    assert name1 + ['='] + value1 + ['&'] + name2 + ['='] + value2 == first + ['&'] + second;
    SplitFirst(first, second);
    QueryParamsOne(name2, value2);
    NameValueOf(name1, value1);
    NameValueOf(name2, value2);
    var pieces := [first, second];
    assert pieces[..1] == [first];
    assert [first][..0] == [];
    assert PairsToMap([first]) == map[name1 := value1];
    assert PairsToMap(pieces) == PairsToMap([first])[name2 := value2];
  }

  /** The list URL's query, read back by the server, holds exactly `page` and, when set, `deleted=true`. */
  lemma ListQueryStringParams(page: int, deleted: bool)
    ensures QueryParams(ListQueryString(page, deleted)) ==
      if deleted then map["page" := IntToString(page), "deleted" := "true"]
      else map["page" := IntToString(page)]
  {
    var d := IntToString(page);
    IntToStringPlain(page);
    if deleted {
      assert ListQueryString(page, deleted) == "page" + ['='] + d + ['&'] + "deleted" + ['='] + "true";
      QueryParamsTwo("page", d, "deleted", "true");
    } else {
      assert ListQueryString(page, deleted) == "page" + ['='] + d;
      QueryParamsOne("page", d);
    }
  }

  /**
   * The server reads the page's list URL back as the same page and switch:
   * for every page from 1 up the query parses to that page and `deleted`
   * flag, and for a page below 1 it is rejected.
   */
  lemma ListUrlParsesBack(page: int, deleted: bool)
    ensures page >= 1 ==>
      HairPropsRoute.ParseListQuery(QueryParams(ListQueryString(page, deleted)))
        == Ok(HairPropsRoute.ListQuery(page, deleted))
    ensures page < 1 ==> HairPropsRoute.ParseListQuery(QueryParams(ListQueryString(page, deleted))).Err?
  {
    ListQueryStringParams(page, deleted);
    NumberOfIntToString(page);
  }

  /** The list data the page reads from the response. */
  datatype ListPageData = ListPageData(productLengths: Option<seq<ProductLength>>, count: int, page: int, lastPage: int)

  /** The props of the table's pagination. */
  datatype Pagination = Pagination(
    count: int, pageSize: nat, pageIndex: int, pageCount: int,
    canPreviousPage: bool, canNextPage: bool)

  /** `data?.last_page ?? 1`. */
  function PageCount(data: Option<ListPageData>): int {
    match data
    case None => 1
    case Some(d) => d.lastPage
  }

  /** The pagination shown for page `page` and the fetched `data`. */
  function PaginationFor(page: int, data: Option<ListPageData>): (p: Pagination)
    ensures p.canPreviousPage <==> page > 1
    ensures p.canNextPage <==> page < PageCount(data)
    ensures data.None? ==> !p.canNextPage || page < 1
    ensures p.pageSize == HairPropsRoute.PageSize
    ensures p.pageIndex + 1 == page
    ensures data.None? ==> p.pageCount == 1
    ensures data.Some? ==> p.pageCount == data.value.lastPage
    ensures p.count == if data.Some? && data.value.count != 0 then data.value.count else 0
  {
    Pagination(
      if data.Some? && data.value.count != 0 then data.value.count else 0,
      20, page - 1, PageCount(data), page > 1, page < PageCount(data))
  }

  /** The page `previousPage()` moves to: `Math.max(1, page - 1)`. */
  function PreviousPage(page: int): (target: int)
    ensures target >= 1
    ensures page > 1 ==> target == page - 1
    ensures page <= 1 ==> target == 1
  {
    if page - 1 > 1 then page - 1 else 1
  }

  /** The page `nextPage()` moves to: `Math.min(page + 1, last_page ?? 1)`. */
  function NextPage(page: int, data: Option<ListPageData>): (target: int)
    ensures target <= PageCount(data)
    ensures page < PageCount(data) ==> target == page + 1
    ensures page >= PageCount(data) ==> target == PageCount(data)
  {
    if page + 1 < PageCount(data) then page + 1 else PageCount(data)
  }

  /** After "previous", the page read back from the URL is `max(1, page - 1)`, never below 1. */
  lemma PreviousThenRead(params: map<string, string>)
    ensures var page := CurrentPage(params);
      CurrentPage(WithPage(params, PreviousPage(page))) == PreviousPage(page) >= 1
  {
    PageAfterSetPage(params, PreviousPage(CurrentPage(params)));
  }

  /** After "next" on an enabled button, the page read back from the URL is one further (0 reads as 1). */
  lemma NextThenRead(params: map<string, string>, data: Option<ListPageData>)
    requires PaginationFor(CurrentPage(params), data).canNextPage
    ensures var page := CurrentPage(params);
      CurrentPage(WithPage(params, NextPage(page, data))) == if page == -1 then 1 else page + 1
  {
    PageAfterSetPage(params, NextPage(CurrentPage(params), data));
  }

  /** The action a row's menu offers. */
  datatype RowAction = Restore | Delete

  /** A soft-deleted row offers Restore, any other row Delete. */
  function RowActionFor(row: ProductLength): (a: RowAction)
    ensures a == Restore <==> row.deletedAt.Some?
    ensures a == Delete <==> row.deletedAt.None?
  {
    if row.deletedAt.Some? then Restore else Delete
  }

  /** A row that meets the "show deleted" filter offers Restore, never Delete. */
  lemma DeletedListingOffersRestore(row: ProductLength, now: int)
    requires HairPropsRoute.MatchesFilter(row, HairPropsRoute.DeletedAtMost(now))
    ensures RowActionFor(row) == Restore
  {
  }

  /** The React Query key of the list: `['hair-props', deleted, page]`. */
  function ListQueryKey(deleted: bool, page: int): seq<JsPrimitive> {
    [JsString("hair-props"), JsBool(deleted), JsNum(page)]
  }

  /** After a delete or restore, the queries whose key starts with `'hair-props'` are refetched. */
  predicate InvalidatedByDeleteOrRestore(key: seq<JsPrimitive>) {
    |key| >= 1 && key[0] == JsString("hair-props")
  }

  /** Deleting or restoring a row refreshes every page of both listings. */
  lemma DeleteOrRestoreRefreshesList(deleted: bool, page: int)
    ensures InvalidatedByDeleteOrRestore(ListQueryKey(deleted, page))
  {
  }
}
