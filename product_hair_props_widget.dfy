/**
 * The "Product Lengths & Cap Sizes" widget on the admin product page. It
 * shows the product's lengths, merging the length names no record exists
 * for ("missing") with the known length records into one list sorted by
 * name, offers to create a missing length, and for each missing cap size
 * opens a drawer whose form creates it.
 *
 * The endpoint that computes which lengths and cap sizes are missing is not
 * part of this model; its response is an input here.
 */
module ProductHairPropsWidget {
  import opened Wrappers
  import opened JsValues
  import opened HairPropsModels
  import StableSort
  import HairPropsRoute
  import HairPropsPage

  /** A known length record with the cap sizes its variants name but no record exists for. */
  datatype KnownLength = KnownLength(length: ProductLength, missingCapSizes: seq<string>)

  /** The widget's query data; either list may be missing. */
  datatype HairPropsData = HairPropsData(missingProductLengths: Option<seq<string>>, productLengths: Option<seq<KnownLength>>)

  /** An element of the merged list: a bare missing name, or a known record. */
  datatype LengthEntry = Missing(name: string) | Known(known: KnownLength)

  /** The name an entry sorts by: the string itself, or the record's `name`. */
  function EntryName(e: LengthEntry): string {
    match e
    case Missing(name) => name
    case Known(k) => k.length.name
  }

  /** `data?.missing_product_lengths ?? []`. */
  function MissingOf(data: Option<HairPropsData>): seq<string> {
    if data.Some? then data.value.missingProductLengths.GetOr([]) else []
  }

  /** `data?.product_lengths ?? []`. */
  function KnownOf(data: Option<HairPropsData>): seq<KnownLength> {
    if data.Some? then data.value.productLengths.GetOr([]) else []
  }

  /** The array built by the spread: the missing names first, then the records. */
  function Spread(data: Option<HairPropsData>): (es: seq<LengthEntry>)
    ensures |es| == |MissingOf(data)| + |KnownOf(data)|
    ensures forall i :: 0 <= i < |MissingOf(data)| ==> es[i] == Missing(MissingOf(data)[i])
    ensures forall i :: 0 <= i < |KnownOf(data)| ==> es[|MissingOf(data)| + i] == Known(KnownOf(data)[i])
  {
    var missing := MissingOf(data);
    var known := KnownOf(data);
    seq(|missing|, i requires 0 <= i < |missing| => Missing(missing[i]))
      + seq(|known|, i requires 0 <= i < |known| => Known(known[i]))
  }

  /** `productLengthsData`: the spread sorted by name, `le` standing for `localeCompare(a, b) <= 0`. */
  function ProductLengthsData(data: Option<HairPropsData>, le: (string, string) -> bool): (es: seq<LengthEntry>)
    ensures |es| == |MissingOf(data)| + |KnownOf(data)|
    ensures multiset(es) == multiset(Spread(data))
  {
    StableSort.Sort(Spread(data), EntryName, le)
  }

  /** The spread holds every missing name and every known record, and nothing else. */
  lemma SpreadMembers(data: Option<HairPropsData>, e: LengthEntry)
    ensures e in Spread(data) <==>
      (e.Missing? && e.name in MissingOf(data)) || (e.Known? && e.known in KnownOf(data))
  {
    var spread := Spread(data);
    var missing := MissingOf(data);
    var known := KnownOf(data);
    if e.Missing? && e.name in missing {
      var i :| 0 <= i < |missing| && missing[i] == e.name;
      assert spread[i] == e;
    }
    if e.Known? && e.known in known {
      var i :| 0 <= i < |known| && known[i] == e.known;
      assert spread[|missing| + i] == e;
    }
    if e in spread {
      var i :| 0 <= i < |spread| && spread[i] == e;
      if i < |missing| {
        assert e == Missing(missing[i]);
      } else {
        assert e == Known(known[i - |missing|]);
      }
    }
  }

  /** The merged list holds every missing name and every known record, and nothing else. */
  lemma ProductLengthsDataMembers(data: Option<HairPropsData>, le: (string, string) -> bool, e: LengthEntry)
    ensures e in ProductLengthsData(data, le) <==>
      (e.Missing? && e.name in MissingOf(data)) || (e.Known? && e.known in KnownOf(data))
  {
    var es := ProductLengthsData(data, le);
    var spread := Spread(data);
    assert e in es <==> e in multiset(es);
    assert e in spread <==> e in multiset(spread);
    SpreadMembers(data, e);
  }

  /** The merged list is in ascending name order. */
  lemma ProductLengthsDataSorted(data: Option<HairPropsData>, le: (string, string) -> bool)
    requires StableSort.TotalPreorder(le)
    ensures StableSort.SortedBy(ProductLengthsData(data, le), EntryName, le)
  {
    StableSort.SortSorted(Spread(data), EntryName, le);
  }

  /** An ASCII word character, the class `\w` of a JavaScript regular expression without the `u` flag. */
  predicate IsWordChar(c: char) {
    'a' <= c <= 'z' || 'A' <= c <= 'Z' || '0' <= c <= '9' || c == '_'
  }

  /**
   * `toLowerCase()` of one character, exact wherever the slug can see the
   * difference: ASCII capitals become small letters, KELVIN SIGN becomes
   * `k`, LATIN CAPITAL LETTER I WITH DOT ABOVE becomes `i` followed by a
   * combining dot. Every other character is kept; its true lower case is
   * not an ASCII word character either, so the slug is the same.
   */
  function LowerChar(c: char): (s: string)
    ensures 1 <= |s| <= 2
    ensures 'A' <= c <= 'Z' ==> s == [(c as int + 32) as char] && 'a' <= s[0] <= 'z'
    ensures c == '\U{212A}' ==> s == "k"
    ensures c == '\U{0130}' ==> s == "i\U{0307}"
    ensures !('A' <= c <= 'Z') && c != '\U{212A}' && c != '\U{0130}' ==> s == [c]
  {
    if 'A' <= c <= 'Z' then [(c as int + 32) as char]
    else if c == '\U{212A}' then "k"
    else if c == '\U{0130}' then "i\U{0307}"
    else [c]
  }

  /** `s.toLowerCase()`, as `LowerChar` describes it. */
  function LowerCase(s: string): (r: string)
    ensures |r| >= |s|
    ensures s != [] ==> r == LowerChar(s[0]) + LowerCase(s[1..])
  {
    if s == [] then [] else LowerChar(s[0]) + LowerCase(s[1..])
  }

  /** `s.replace(/[^\w]/g, '-')`. */
  function ReplaceNonWord(s: string): (r: string)
    ensures |r| == |s|
    ensures forall i :: 0 <= i < |s| ==> r[i] == if IsWordChar(s[i]) then s[i] else '-'
  {
    seq(|s|, i requires 0 <= i < |s| => if IsWordChar(s[i]) then s[i] else '-')
  }

  /** The characters a slug is made of: lower-case ASCII letters, digits, `_` and `-`. */
  predicate IsSlugChar(c: char) {
    'a' <= c <= 'z' || '0' <= c <= '9' || c == '_' || c == '-'
  }

  /** The form-id slug of a cap size name: lower-cased, non-word characters replaced by `-`. */
  function Slug(name: string): (r: string)
    ensures |r| >= |name|
  {
    ReplaceNonWord(LowerCase(name))
  }

  /** An ASCII character: the only ones whose lower case is one character of the same index. */
  predicate IsAscii(c: char) {
    c as int < 128
  }

  /** The lower case of an ASCII character. */
  function LowerAscii(c: char): (l: char)
    ensures IsWordChar(c) <==> IsWordChar(l)
    ensures !('A' <= l <= 'Z')
  {
    if 'A' <= c <= 'Z' then (c as int + 32) as char else c
  }

  /** Lower-casing an ASCII name lower-cases each character in place. */
  lemma {:induction false} LowerCaseAscii(s: string)
    requires forall i :: 0 <= i < |s| ==> IsAscii(s[i])
    ensures |LowerCase(s)| == |s|
    ensures forall i :: 0 <= i < |s| ==> LowerCase(s)[i] == LowerAscii(s[i])
    decreases |s|
  {
    if s != [] {
      LowerCaseAscii(s[1..]);
      assert LowerChar(s[0]) == [LowerAscii(s[0])];
      forall i | 0 <= i < |s| ensures LowerCase(s)[i] == LowerAscii(s[i]) {
        if i > 0 {
          assert LowerCase(s)[i] == LowerCase(s[1..])[i - 1];
          assert s[1..][i - 1] == s[i];
        }
      }
    }
  }

  /**
   * The slug of an ASCII name has the name's length; at each position a
   * capital becomes its small letter, another word character is kept, and
   * any other character becomes `-`.
   */
  lemma SlugOfAscii(name: string)
    requires forall i :: 0 <= i < |name| ==> IsAscii(name[i])
    ensures |Slug(name)| == |name|
    ensures forall i :: 0 <= i < |name| ==>
      Slug(name)[i] == if IsWordChar(name[i]) then LowerAscii(name[i]) else '-'
  {
    LowerCaseAscii(name);
  }

  /** Lower-casing leaves no ASCII capital behind. */
  lemma {:induction false} LowerCaseHasNoCapitals(s: string)
    ensures forall i :: 0 <= i < |LowerCase(s)| ==> !('A' <= LowerCase(s)[i] <= 'Z')
  {
    if s != [] {
      LowerCaseHasNoCapitals(s[1..]);
      var head := LowerChar(s[0]);
      var r := LowerCase(s);
      forall i | 0 <= i < |r| ensures !('A' <= r[i] <= 'Z') {
        if i >= |head| {
          assert r[i] == LowerCase(s[1..])[i - |head|];
        }
      }
    }
  }

  /** A slug is made only of slug characters: ASCII word characters other than capitals, and `-`. */
  lemma SlugChars(name: string)
    ensures forall i :: 0 <= i < |Slug(name)| ==> IsSlugChar(Slug(name)[i])
  {
    LowerCaseHasNoCapitals(name);
  }

  /** A name made of slug characters is its own lower case. */
  lemma {:induction false} LowerCaseOfSlugChars(s: string)
    requires forall i :: 0 <= i < |s| ==> IsSlugChar(s[i])
    ensures LowerCase(s) == s
  {
    if s != [] {
      LowerCaseOfSlugChars(s[1..]);
      assert LowerChar(s[0]) == [s[0]];
    }
  }

  /** A name made of slug characters is its own slug. */
  lemma SlugOfSlugChars(name: string)
    requires forall i :: 0 <= i < |name| ==> IsSlugChar(name[i])
    ensures Slug(name) == name
  {
    LowerCaseOfSlugChars(name);
  }

  /** Slugging is idempotent. */
  lemma SlugIdempotent(name: string)
    ensures Slug(Slug(name)) == Slug(name)
  {
    SlugChars(name);
    SlugOfSlugChars(Slug(name));
  }

  /** `product-length-<id>-add-cap-size-<slug>`. */
  function FormId(productLengthId: string, name: string): string {
    "product-length-" + productLengthId + "-add-cap-size-" + Slug(name)
  }

  /** The ids wired up by an `AddCapSizeDrawer` and the name its form starts with. */
  datatype AddCapSizeDrawerProps = AddCapSizeDrawerProps(formId: string, submitForm: string, defaultName: string)

  /** The form's `id` and the submit button's `form` are the same expression, so the button submits that form. */
  function AddCapSizeDrawer(productLengthId: string, name: string): (d: AddCapSizeDrawerProps)
    ensures d.submitForm == d.formId
    ensures d.defaultName == name
    ensures d.formId == "product-length-" + productLengthId + "-add-cap-size-" + Slug(name)
  {
    AddCapSizeDrawerProps(FormId(productLengthId, name), FormId(productLengthId, name), name)
  }

  /** The values `addCapSizeFormSchema` lets through. */
  datatype CapSizeInput = CapSizeInput(name: string)

  /** `addCapSizeFormSchema`: `name` must be a non-empty string. */
  function ValidateCapSizeForm(name: string): (r: Result<CapSizeInput, HairPropsRoute.ValidationError>)
    ensures r.Ok? <==> name != ""
    ensures r.Ok? ==> r.value.name == name
  {
    if name == "" then Err(HairPropsRoute.NameEmpty) else Ok(CapSizeInput(name))
  }

  /** The widget's React Query key: `['product', productId, 'hair-props']`. */
  function WidgetQueryKey(productId: string): seq<JsPrimitive> {
    [JsString("product"), JsString(productId), JsString("hair-props")]
  }

  /** After a cap size is created, the queries this predicate selects are refetched. */
  predicate InvalidatedByAddCapSize(key: seq<JsPrimitive>) {
    |key| >= 3 && key[0] == JsString("product") && key[2] == JsString("hair-props")
  }

  /**
   * The widget's own invalidation predicate selects its query for every
   * product, and does not select the product-length list page's keys.
   */
  lemma AddCapSizeRefreshesWidget(productId: string, deleted: bool, page: int)
    ensures InvalidatedByAddCapSize(WidgetQueryKey(productId))
    ensures !InvalidatedByAddCapSize(HairPropsPage.ListQueryKey(deleted, page))
  {
  }

  /** The flags and data of the widget's query. */
  datatype QueryState = QueryState(isLoading: bool, isError: bool, isSuccess: bool, data: Option<HairPropsData>)

  /** What the widget's body shows. */
  datatype WidgetBody = Loading | LoadError | NoVariants | Lengths(entries: seq<LengthEntry>) | NoDetails

  /** The widget's body for a query state. */
  function Body(q: QueryState, le: (string, string) -> bool): (b: WidgetBody)
    ensures b == NoVariants <==>
      !q.isLoading && !q.isError && q.isSuccess && q.data.Some? && MissingOf(q.data) == [] && KnownOf(q.data) == []
    ensures b.Lengths? <==>
      !q.isLoading && !q.isError && q.isSuccess && q.data.Some? && ProductLengthsData(q.data, le) != []
    ensures b.Lengths? ==> b.entries == ProductLengthsData(q.data, le)
    ensures b == Loading <==> q.isLoading
    ensures b == LoadError <==> !q.isLoading && q.isError
    ensures b == NoDetails <==> !q.isLoading && !q.isError && !(q.isSuccess && q.data.Some?)
  {
    if q.isLoading then Loading
    else if q.isError then LoadError
    else if q.isSuccess && q.data.Some? && |ProductLengthsData(q.data, le)| == 0 then NoVariants
    else if q.isSuccess && q.data.Some? then Lengths(ProductLengthsData(q.data, le))
    else NoDetails
  }

  /** The body of the "Create product length" request: `{name}` of a missing entry; none for a known one. */
  function CreateLengthBody(e: LengthEntry): (body: Option<HairPropsRoute.Json>)
    ensures body.Some? <==> e.Missing?
    ensures body.Some? ==> body.value == HairPropsRoute.JObject(map["name" := HairPropsRoute.JString(EntryName(e))])
  {
    match e
    case Missing(name) => Some(HairPropsRoute.JObject(map["name" := HairPropsRoute.JString(name)]))
    case Known(_) => None
  }
}
