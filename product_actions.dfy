/**
 * The storefront's product actions: the shopper picks a value for each
 * product option, the selection is matched against the product's variants,
 * and the add-to-cart button is enabled when the matched variant can be
 * sold. Options titled Material, Color and Size are shown first; when a
 * product has both a Material and a Color option these get dedicated
 * pickers, the colours coming from the chosen material.
 */
module ProductActions {
  import opened Wrappers

  /** One entry of a variant's `options`: the option it sets and the value. */
  datatype VariantOption = VariantOption(optionId: Option<string>, value: string)

  /**
   * A product variant. `manage_inventory` and `allow_backorder` may be
   * `null` in the store API; `null` behaves as `false` in every test the
   * component makes, so they are booleans here.
   */
  datatype Variant = Variant(
    id: string,
    options: Option<seq<VariantOption>>,
    manageInventory: bool,
    allowBackorder: bool,
    inventoryQuantity: Option<int>)

  /** A value of a product option. */
  datatype OptionValue = OptionValue(id: string, value: string)

  /** A product option (Material, Color, Size, ...). */
  datatype ProductOption = ProductOption(id: string, title: Option<string>, values: Option<seq<OptionValue>>)

  /** A colour of a material, as the storefront receives it. */
  datatype MaterialColor = MaterialColor(id: string, name: string, hexCode: string)

  /** A material with the colours it comes in. */
  datatype Material = Material(id: string, name: string, colors: seq<MaterialColor>)

  // ---------------------------------------------------------------------
  // optionsAsKeymap
  // ---------------------------------------------------------------------

  /** `if (varopt.option_id)`: the entry names an option (present and non-empty). */
  predicate HasOptionId(o: VariantOption) {
    o.optionId.Some? && o.optionId.value != ""
  }

  /** The map the reduction has built after `entries`: each named entry assigned in turn. */
  function KeymapOf(entries: seq<VariantOption>): map<string, string>
    decreases |entries|
  {
    if entries == [] then map[]
    else
      var acc := KeymapOf(entries[..|entries| - 1]);
      var o := entries[|entries| - 1];
      if HasOptionId(o) then acc[o.optionId.value := o.value] else acc
  }

  /** `optionsAsKeymap(variantOptions)`: undefined for undefined input. */
  function Keymap(variantOptions: Option<seq<VariantOption>>): (m: Option<map<string, string>>)
    ensures m.Some? <==> variantOptions.Some?
  {
    match variantOptions
    case None => None
    case Some(entries) => Some(KeymapOf(entries))
  }

  /**
   * `optionsAsKeymap`: reduces the entries into a fresh accumulator,
   * assigning `acc[option_id] = value` for every entry with an option id.
   */
  method OptionsAsKeymap(variantOptions: Option<seq<VariantOption>>) returns (keymap: Option<map<string, string>>)
    ensures keymap == Keymap(variantOptions)
  {
    if variantOptions.None? {
      return None;
    }
    var entries := variantOptions.value;
    var acc: map<string, string> := map[];
    var i := 0;
    while i < |entries|
      invariant 0 <= i <= |entries|
      invariant acc == KeymapOf(entries[..i])
    {
      var o := entries[i];
      assert entries[..i + 1][..i] == entries[..i];
      if o.optionId.Some? && o.optionId.value != "" {
        acc := acc[o.optionId.value := o.value];
      }
      i := i + 1;
    }
    assert entries[..i] == entries;
    return Some(acc);
  }

  /**
   * The keymap has a key for exactly the option ids the entries name, and
   * each key maps to the value of the last entry naming it.
   */
  lemma {:induction false} KeymapLookup(entries: seq<VariantOption>, k: string)
    ensures k in KeymapOf(entries) <==>
      k != "" && exists i :: 0 <= i < |entries| && entries[i].optionId == Some(k)
    ensures k in KeymapOf(entries) ==>
      exists i :: 0 <= i < |entries| && entries[i].optionId == Some(k) && KeymapOf(entries)[k] == entries[i].value
        && forall j :: i < j < |entries| ==> entries[j].optionId != Some(k)
    decreases |entries|
  {
    if entries != [] {
      var n := |entries| - 1;
      var init := entries[..n];
      KeymapLookup(init, k);
      if entries[n].optionId == Some(k) && k != "" {
        assert KeymapOf(entries)[k] == entries[n].value;
      } else {
        assert k in KeymapOf(entries) <==> k in KeymapOf(init);
        if exists i :: 0 <= i < |entries| && entries[i].optionId == Some(k) {
          var i :| 0 <= i < |entries| && entries[i].optionId == Some(k);
          if k != "" {
            assert i < n && init[i].optionId == Some(k);
          }
        }
        if k in KeymapOf(init) {
          var i :| 0 <= i < |init| && init[i].optionId == Some(k) && KeymapOf(init)[k] == init[i].value
            && forall j :: i < j < |init| ==> init[j].optionId != Some(k);
          assert entries[i] == init[i];
        }
      }
    }
  }

  // ---------------------------------------------------------------------
  // selectedVariant
  // ---------------------------------------------------------------------

  /** `isEqual(optionsAsKeymap(v.options), options)`: same keys, same values. */
  predicate Matches(v: Variant, selection: map<string, string>) {
    Keymap(v.options) == Some(selection)
  }

  /** `variants.find(...)`: the first variant matching the selection. */
  function FindMatch(variants: seq<Variant>, selection: map<string, string>): (r: Option<Variant>)
    ensures r.Some? ==> r.value in variants && Matches(r.value, selection)
    ensures r.None? ==> forall v :: v in variants ==> !Matches(v, selection)
  {
    if variants == [] then None
    else if Matches(variants[0], selection) then Some(variants[0])
    else
      assert forall v :: v in variants ==> v == variants[0] || v in variants[1..];
      FindMatch(variants[1..], selection)
  }

  /** The variant found is the first matching one. */
  lemma {:induction false} FindMatchFirst(variants: seq<Variant>, selection: map<string, string>, i: nat)
    requires i < |variants| && Matches(variants[i], selection)
    requires forall j :: 0 <= j < i ==> !Matches(variants[j], selection)
    ensures FindMatch(variants, selection) == Some(variants[i])
    decreases i
  {
    if i > 0 {
      FindMatchFirst(variants[1..], selection, i - 1);
    }
  }

  /** `selectedVariant`: undefined without variants, else the first exact match. */
  function SelectedVariant(variants: Option<seq<Variant>>, selection: map<string, string>): (r: Option<Variant>)
    ensures variants.None? || variants.value == [] ==> r.None?
    ensures r.Some? ==> variants.Some? && r.value in variants.value && Matches(r.value, selection)
    ensures r.Some? ==> Keymap(r.value.options).value.Keys == selection.Keys
    ensures r.None? && variants.Some? ==> forall v :: v in variants.value ==> !Matches(v, selection)
  {
    if variants.None? || |variants.value| == 0 then None
    else FindMatch(variants.value, selection)
  }

  /** Among variants with the same options, the first one listed is the one selected. */
  lemma FirstMatchWins(variants: seq<Variant>, selection: map<string, string>, i: nat)
    requires i < |variants| && Matches(variants[i], selection)
    requires forall j :: 0 <= j < i ==> !Matches(variants[j], selection)
    ensures SelectedVariant(Some(variants), selection) == Some(variants[i])
  {
    FindMatchFirst(variants, selection, i);
  }

  /**
   * With a single variant, the preselected options are its keymap, which
   * selects it; a single variant without an options list is preselected
   * as `{}` and nothing is selected.
   */
  lemma SingleVariantPreselected(v: Variant)
    ensures v.options.Some? ==> SelectedVariant(Some([v]), Keymap(v.options).value) == Some(v)
    ensures v.options.None? ==> SelectedVariant(Some([v]), Keymap(v.options).GetOr(map[])) == None
  {
    if v.options.Some? {
      FirstMatchWins([v], Keymap(v.options).value, 0);
    }
  }

  // ---------------------------------------------------------------------
  // inStock and the add-to-cart button
  // ---------------------------------------------------------------------

  /** `inventory_quantity || 0`. */
  function QuantityOrZero(v: Variant): int {
    match v.inventoryQuantity
    case None => 0
    case Some(q) => q
  }

  /** `inStock`: whether the selected variant can be added to the cart. */
  function InStock(selected: Option<Variant>): (r: bool)
    ensures selected.None? ==> !r
    ensures r <==> (selected.Some? &&
      (!selected.value.manageInventory || selected.value.allowBackorder || QuantityOrZero(selected.value) > 0))
    ensures r && selected.value.manageInventory && !selected.value.allowBackorder ==>
      selected.value.inventoryQuantity.Some? && selected.value.inventoryQuantity.value > 0
  {
    if selected.Some? && !selected.value.manageInventory then true
    else if selected.Some? && selected.value.allowBackorder then true
    else if selected.Some? && selected.value.manageInventory && QuantityOrZero(selected.value) > 0 then true
    else false
  }

  /** The add-to-cart button's `disabled`. */
  function AddToCartDisabled(selected: Option<Variant>, disabled: bool, isAdding: bool): (r: bool)
    ensures !r ==> selected.Some? && InStock(selected) && !disabled && !isAdding
    ensures r ==> selected.None? || !InStock(selected) || disabled || isAdding
  {
    !InStock(selected) || selected.None? || disabled || isAdding
  }

  /** The add-to-cart button's text. */
  function AddToCartLabel(selected: Option<Variant>): (text: string)
    ensures text == "Select variant" <==> selected.None?
    ensures text == "Out of stock" <==> selected.Some? && !InStock(selected)
    ensures text == "Add to cart" <==> InStock(selected)
  {
    if selected.None? then "Select variant"
    else if !InStock(selected) then "Out of stock"
    else "Add to cart"
  }

  /** An enabled button always reads "Add to cart". */
  lemma EnabledButtonReadsAddToCart(selected: Option<Variant>, disabled: bool, isAdding: bool)
    requires !AddToCartDisabled(selected, disabled, isAdding)
    ensures AddToCartLabel(selected) == "Add to cart"
  {
  }

  /** What `handleAddToCart` asks `addToCart` for. */
  datatype AddToCartRequest = AddToCartRequest(variantId: string, quantity: int, countryCode: string)

  // ---------------------------------------------------------------------
  // Option ordering: `product.options.sort(...)` by priority, in place
  // ---------------------------------------------------------------------

  /** The titles shown first, in this order. */
  const PriorityTitles: seq<string> := ["Material", "Color", "Size"]

  /** An option's place in `priorityOptions` (`title ?? ""`), or 3 when it is not listed. */
  function Priority(o: ProductOption): (p: nat)
    ensures p <= |PriorityTitles|
    ensures p < |PriorityTitles| <==> o.title.GetOr("") in PriorityTitles
    ensures p < |PriorityTitles| ==> PriorityTitles[p] == o.title.GetOr("")
  {
    var title := o.title.GetOr("");
    if title == "Material" then 0
    else if title == "Color" then 1
    else if title == "Size" then 2
    else 3
  }

  /** Options in non-decreasing priority. */
  ghost predicate SortedByPriority(s: seq<ProductOption>) {
    forall i, j :: 0 <= i < j < |s| ==> Priority(s[i]) <= Priority(s[j])
  }

  /** The options of priority `p`, in their order in `s`. */
  function Bucket(s: seq<ProductOption>, p: nat): seq<ProductOption>
  {
    if s == [] then []
    else (if Priority(s[0]) == p then [s[0]] else []) + Bucket(s[1..], p)
  }

  /**
   * The order a stable sort by priority produces: all priority-0 options,
   * then priority 1, 2 and 3, each group in input order.
   */
  function PriorityOrder(s: seq<ProductOption>): seq<ProductOption> {
    Bucket(s, 0) + Bucket(s, 1) + Bucket(s, 2) + Bucket(s, 3)
  }

  /** A bucket holds options of its own priority only. */
  lemma {:induction false} BucketMembers(s: seq<ProductOption>, p: nat)
    ensures forall o :: o in Bucket(s, p) ==> Priority(o) == p
    decreases |s|
  {
    if s != [] {
      BucketMembers(s[1..], p);
    }
  }

  /** The buckets of a concatenation are the concatenated buckets. */
  lemma {:induction false} BucketAppend(s: seq<ProductOption>, t: seq<ProductOption>, p: nat)
    ensures Bucket(s + t, p) == Bucket(s, p) + Bucket(t, p)
    decreases |s|
  {
    if s == [] {
      assert s + t == t;
    } else {
      var u := s + t;
      assert u[0] == s[0] && u[1..] == s[1..] + t;
      BucketAppend(s[1..], t, p);
      var head := if Priority(s[0]) == p then [s[0]] else [];
      assert Bucket(u, p) == head + Bucket(u[1..], p);
      assert Bucket(s, p) == head + Bucket(s[1..], p);
    }
  }

  /** The bucket of a two-option list. */
  lemma BucketPair(x: ProductOption, y: ProductOption, p: nat)
    ensures Bucket([x, y], p) == (if Priority(x) == p then [x] else []) + (if Priority(y) == p then [y] else [])
  {
    var hx := if Priority(x) == p then [x] else [];
    var hy := if Priority(y) == p then [y] else [];
    assert [x, y][0] == x && [x, y][1..] == [y];
    assert [y][0] == y && [y][1..] == [];
    assert Bucket([y], p) == hy + Bucket([], p) == hy;
    assert Bucket([x, y], p) == hx + Bucket([y], p);
  }

  /** Swapping two neighbours of different priority leaves every bucket unchanged. */
  lemma SwapNeighboursKeepsBuckets(pre: seq<ProductOption>, x: ProductOption, y: ProductOption,
                                   post: seq<ProductOption>, p: nat)
    requires Priority(x) != Priority(y)
    ensures Bucket(pre + [y, x] + post, p) == Bucket(pre + [x, y] + post, p)
  {
    BucketPair(x, y, p);
    BucketPair(y, x, p);
    assert Bucket([x, y], p) == Bucket([y, x], p);
    BucketAppend(pre + [x, y], post, p);
    BucketAppend(pre, [x, y], p);
    BucketAppend(pre + [y, x], post, p);
    BucketAppend(pre, [y, x], p);
  }

  /** A bucket no element falls into is empty. */
  lemma {:induction false} BucketEmpty(s: seq<ProductOption>, p: nat)
    requires forall i :: 0 <= i < |s| ==> Priority(s[i]) != p
    ensures Bucket(s, p) == []
    decreases |s|
  {
    if s != [] {
      BucketEmpty(s[1..], p);
    }
  }

  /** Putting in front an option whose priority no later option undercuts puts it in front of the order. */
  lemma PriorityOrderCons(x: ProductOption, rest: seq<ProductOption>)
    requires forall p: nat :: p < Priority(x) ==> Bucket(rest, p) == []
    ensures PriorityOrder([x] + rest) == [x] + PriorityOrder(rest)
  {
    var s := [x] + rest;
    assert s[0] == x && s[1..] == rest;
    var b0, b1, b2, b3 := Bucket(rest, 0), Bucket(rest, 1), Bucket(rest, 2), Bucket(rest, 3);
    assert Bucket(s, 0) == (if Priority(x) == 0 then [x] else []) + b0;
    assert Bucket(s, 1) == (if Priority(x) == 1 then [x] else []) + b1;
    assert Bucket(s, 2) == (if Priority(x) == 2 then [x] else []) + b2;
    assert Bucket(s, 3) == (if Priority(x) == 3 then [x] else []) + b3;
    if Priority(x) == 0 {
      assert PriorityOrder(s) == [x] + b0 + b1 + b2 + b3;
    } else if Priority(x) == 1 {
      assert b0 == [];
      assert PriorityOrder(s) == [x] + b1 + b2 + b3;
    } else if Priority(x) == 2 {
      assert b0 == [] && b1 == [];
      assert PriorityOrder(s) == [x] + b2 + b3;
    } else {
      assert b0 == [] && b1 == [] && b2 == [];
      assert PriorityOrder(s) == [x] + b3;
    }
  }

  /** An options list already sorted by priority is its own stable priority order. */
  lemma {:induction false} SortedIsPriorityOrder(s: seq<ProductOption>)
    requires SortedByPriority(s)
    ensures PriorityOrder(s) == s
    decreases |s|
  {
    if s != [] {
      var x, rest := s[0], s[1..];
      assert SortedByPriority(rest) by {
        forall i, j | 0 <= i < j < |rest| ensures Priority(rest[i]) <= Priority(rest[j]) {
          assert rest[i] == s[i + 1] && rest[j] == s[j + 1];
        }
      }
      SortedIsPriorityOrder(rest);
      forall p: nat | p < Priority(x) ensures Bucket(rest, p) == [] {
        forall i | 0 <= i < |rest| ensures Priority(rest[i]) != p {
          assert rest[i] == s[i + 1];
        }
        BucketEmpty(rest, p);
      }
      PriorityOrderCons(x, rest);
      assert s == [x] + rest;
    }
  }

  /** The stable priority order of `s` is a permutation of `s`. */
  lemma {:induction false} PriorityOrderPermutes(s: seq<ProductOption>)
    ensures multiset(PriorityOrder(s)) == multiset(s)
    decreases |s|
  {
    if s != [] {
      PriorityOrderPermutes(s[1..]);
      assert s == [s[0]] + s[1..];
    }
  }

  /** `PriorityOrder` is sorted by priority. */
  lemma PriorityOrderSorted(s: seq<ProductOption>)
    ensures SortedByPriority(PriorityOrder(s))
  {
    var r := PriorityOrder(s);
    var b0, b1, b2, b3 := Bucket(s, 0), Bucket(s, 1), Bucket(s, 2), Bucket(s, 3);
    BucketMembers(s, 0);
    BucketMembers(s, 1);
    BucketMembers(s, 2);
    BucketMembers(s, 3);
    forall i | 0 <= i < |r| ensures Priority(r[i]) == (
      if i < |b0| then 0 else if i < |b0| + |b1| then 1 else if i < |b0| + |b1| + |b2| then 2 else 3)
    {
      if i < |b0| { assert r[i] == b0[i]; }
      else if i < |b0| + |b1| { assert r[i] == b1[i - |b0|]; }
      else if i < |b0| + |b1| + |b2| { assert r[i] == b2[i - |b0| - |b1|]; }
      else { assert r[i] == b3[i - |b0| - |b1| - |b2|]; }
    }
  }

  /**
   * `(product.options || []).sort(byPriority)`: sorts the options in place
   * by their priority, keeping options of equal priority in their order.
   */
  method SortByPriority(a: array<ProductOption>)
    modifies a
    ensures a[..] == PriorityOrder(old(a[..]))
    ensures SortedByPriority(a[..])
    ensures multiset(a[..]) == multiset(old(a[..]))
  {
    ghost var original := a[..];
    var i := 0;
    while i < a.Length
      invariant 0 <= i <= a.Length
      invariant forall p, q :: 0 <= p < q < i ==> Priority(a[p]) <= Priority(a[q])
      invariant forall p: nat :: Bucket(a[..], p) == Bucket(original, p)
    {
      InsertAt(a, i, original);
      i := i + 1;
    }
    assert a[..i] == a[..];
    SortedIsPriorityOrder(a[..]);
    PriorityOrderPermutes(original);
    PriorityOrderSorted(original);
  }

  /** Moves `a[i]` left past every option of greater priority; `a[..i]` is sorted before. */
  method InsertAt(a: array<ProductOption>, i: nat, ghost original: seq<ProductOption>)
    requires i < a.Length
    requires forall p, q :: 0 <= p < q < i ==> Priority(a[p]) <= Priority(a[q])
    requires forall p: nat :: Bucket(a[..], p) == Bucket(original, p)
    modifies a
    ensures forall p, q :: 0 <= p < q <= i ==> Priority(a[p]) <= Priority(a[q])
    ensures forall p: nat :: Bucket(a[..], p) == Bucket(original, p)
  {
    var j := i;
    while j > 0 && Priority(a[j - 1]) > Priority(a[j])
      invariant 0 <= j <= i
      invariant forall p, q :: 0 <= p < q <= i && p != j && q != j ==> Priority(a[p]) <= Priority(a[q])
      invariant forall q :: j < q <= i ==> Priority(a[j]) < Priority(a[q])
      invariant forall p: nat :: Bucket(a[..], p) == Bucket(original, p)
    {
      SwapNeighbours(a, j);
      j := j - 1;
    }
  }

  /** Exchanges `a[j - 1]` and `a[j]`, two options of different priority. */
  method SwapNeighbours(a: array<ProductOption>, j: nat)
    requires 0 < j < a.Length
    requires Priority(a[j - 1]) != Priority(a[j])
    modifies a
    ensures a[j - 1] == old(a[j]) && a[j] == old(a[j - 1])
    ensures forall k :: 0 <= k < a.Length && k != j - 1 && k != j ==> a[k] == old(a[k])
    ensures forall p: nat :: Bucket(a[..], p) == Bucket(old(a[..]), p)
  {
    ghost var before := a[..];
    ghost var pre, x, y, post := before[..j - 1], before[j - 1], before[j], before[j + 1..];
    assert before == pre + [x, y] + post;
    a[j - 1], a[j] := a[j], a[j - 1];
    assert a[..] == pre + [y, x] + post;
    forall p: nat ensures Bucket(a[..], p) == Bucket(before, p) {
      SwapNeighboursKeepsBuckets(pre, x, y, post, p);
    }
  }

  // ---------------------------------------------------------------------
  // Pickers: material, colour and the other options
  // ---------------------------------------------------------------------

  /** `options.find((o) => o.title === title)`. */
  function FindByTitle(options: seq<ProductOption>, title: string): (r: Option<ProductOption>)
    ensures r.Some? ==> r.value in options && r.value.title == Some(title)
    ensures r.None? ==> forall o :: o in options ==> o.title != Some(title)
  {
    if options == [] then None
    else if options[0].title == Some(title) then Some(options[0])
    else
      assert forall o :: o in options ==> o == options[0] || o in options[1..];
      FindByTitle(options[1..], title)
  }

  /** `find` returns the first option with the title: the one at `k` when none before it has that title. */
  lemma {:induction false} FindByTitleFirst(options: seq<ProductOption>, title: string, k: nat)
    requires k < |options| && options[k].title == Some(title)
    requires forall j :: 0 <= j < k ==> options[j].title != Some(title)
    ensures FindByTitle(options, title) == Some(options[k])
    decreases k
  {
    if k > 0 {
      FindByTitleFirst(options[1..], title, k - 1);
    }
  }

  /** The options whose id is neither `id1` nor `id2`, in order. */
  function WithoutIds(options: seq<ProductOption>, id1: string, id2: string): (r: seq<ProductOption>)
    ensures forall o :: o in r <==> o in options && o.id != id1 && o.id != id2
    ensures |r| <= |options|
    ensures |options| == 1 ==> r == if options[0].id != id1 && options[0].id != id2 then options else []
  {
    if options == [] then []
    else
      assert forall o :: o in options ==> o == options[0] || o in options[1..];
      (if options[0].id != id1 && options[0].id != id2 then [options[0]] else [])
        + WithoutIds(options[1..], id1, id2)
  }

  /** The filter works piece by piece, so it keeps the options it keeps in order, and every copy of them. */
  lemma {:induction false} WithoutIdsAppend(a: seq<ProductOption>, b: seq<ProductOption>, id1: string, id2: string)
    ensures WithoutIds(a + b, id1, id2) == WithoutIds(a, id1, id2) + WithoutIds(b, id1, id2)
    decreases |a|
  {
    if a == [] {
      assert a + b == b;
    } else {
      assert (a + b)[0] == a[0] && (a + b)[1..] == a[1..] + b;
      WithoutIdsAppend(a[1..], b, id1, id2);
    }
  }

  /** `otherOptions`: without the Material and Color options when both exist, else all of them. */
  function OtherOptions(ordered: seq<ProductOption>): (r: seq<ProductOption>)
    ensures FindByTitle(ordered, "Material").None? || FindByTitle(ordered, "Color").None? ==> r == ordered
    ensures FindByTitle(ordered, "Material").Some? && FindByTitle(ordered, "Color").Some? ==>
      var m, c := FindByTitle(ordered, "Material").value, FindByTitle(ordered, "Color").value;
      m !in r && c !in r && (forall o :: o in r <==> o in ordered && o.id != m.id && o.id != c.id)
      && r == WithoutIds(ordered, m.id, c.id)
  {
    var m := FindByTitle(ordered, "Material");
    var c := FindByTitle(ordered, "Color");
    if m.Some? && c.Some? then WithoutIds(ordered, m.value.id, c.value.id) else ordered
  }

  /** `options[id]` is truthy: set to a non-empty value. */
  predicate Chosen(selection: map<string, string>, id: string) {
    id in selection && selection[id] != ""
  }

  /** `materials.find((m) => m.name === name)`. */
  function FindMaterial(materials: seq<Material>, name: string): (r: Option<Material>)
    ensures r.Some? ==> r.value in materials && r.value.name == name
    ensures r.None? ==> forall m :: m in materials ==> m.name != name
  {
    if materials == [] then None
    else if materials[0].name == name then Some(materials[0])
    else
      assert forall m :: m in materials ==> m == materials[0] || m in materials[1..];
      FindMaterial(materials[1..], name)
  }

  /** `find` returns the first material with the name: the one at `k` when none before it has that name. */
  lemma {:induction false} FindMaterialFirst(materials: seq<Material>, name: string, k: nat)
    requires k < |materials| && materials[k].name == name
    requires forall j :: 0 <= j < k ==> materials[j].name != name
    ensures FindMaterial(materials, name) == Some(materials[k])
    decreases k
  {
    if k > 0 {
      FindMaterialFirst(materials[1..], name, k - 1);
    }
  }

  /** `selectedMaterial`: the material named by the chosen Material value, if any. */
  function SelectedMaterial(ordered: seq<ProductOption>, materials: seq<Material>,
                            selection: map<string, string>): (r: Option<Material>)
    ensures r.Some? ==> r.value in materials
    ensures r.Some? <==>
      FindByTitle(ordered, "Material").Some? && Chosen(selection, FindByTitle(ordered, "Material").value.id)
      && exists m :: m in materials && m.name == selection[FindByTitle(ordered, "Material").value.id]
    ensures r.Some? ==> r.value.name == selection[FindByTitle(ordered, "Material").value.id]
  {
    var m := FindByTitle(ordered, "Material");
    if m.Some? && Chosen(selection, m.value.id) then FindMaterial(materials, selection[m.value.id]) else None
  }

  /**
   * Of several materials named by the chosen value, the first listed is
   * selected, and its colours are the ones offered.
   */
  lemma SelectedMaterialFirst(ordered: seq<ProductOption>, materials: seq<Material>,
                              selection: map<string, string>, k: nat)
    requires FindByTitle(ordered, "Material").Some?
    requires Chosen(selection, FindByTitle(ordered, "Material").value.id)
    requires k < |materials| && materials[k].name == selection[FindByTitle(ordered, "Material").value.id]
    requires forall j :: 0 <= j < k ==> materials[j].name != selection[FindByTitle(ordered, "Material").value.id]
    ensures SelectedMaterial(ordered, materials, selection) == Some(materials[k])
  {
    FindMaterialFirst(materials, selection[FindByTitle(ordered, "Material").value.id], k);
  }

  /** `showOtherOptions`. */
  function ShowOtherOptions(ordered: seq<ProductOption>, materials: seq<Material>,
                            selection: map<string, string>): (r: bool)
    ensures FindByTitle(ordered, "Material").None? || FindByTitle(ordered, "Color").None? ==> r
    ensures FindByTitle(ordered, "Material").Some? && FindByTitle(ordered, "Color").Some? ==>
      (r <==> (SelectedMaterial(ordered, materials, selection).Some? &&
        (|SelectedMaterial(ordered, materials, selection).value.colors| < 2
          || Chosen(selection, FindByTitle(ordered, "Color").value.id))))
  {
    var m := FindByTitle(ordered, "Material");
    var c := FindByTitle(ordered, "Color");
    var selected := SelectedMaterial(ordered, materials, selection);
    m.None? || c.None? || (selected.Some? && (|selected.value.colors| < 2 || Chosen(selection, c.value.id)))
  }

  /** With Material and Color options, nothing else is offered before a known material is chosen. */
  lemma OtherOptionsWaitForMaterial(ordered: seq<ProductOption>, materials: seq<Material>,
                                    selection: map<string, string>)
    requires FindByTitle(ordered, "Material").Some? && FindByTitle(ordered, "Color").Some?
    requires !Chosen(selection, FindByTitle(ordered, "Material").value.id)
    ensures !ShowOtherOptions(ordered, materials, selection)
  {
  }

  /**
   * Once a known material is chosen, choosing a colour reveals the other
   * options; before that, a material with two or more colours keeps them hidden.
   */
  lemma ChoosingColourRevealsOtherOptions(ordered: seq<ProductOption>, materials: seq<Material>,
                                          selection: map<string, string>, colour: string)
    requires FindByTitle(ordered, "Material").Some? && FindByTitle(ordered, "Color").Some?
    requires FindByTitle(ordered, "Material").value.id != FindByTitle(ordered, "Color").value.id
    requires SelectedMaterial(ordered, materials, selection).Some?
    requires colour != ""
    ensures |SelectedMaterial(ordered, materials, selection).value.colors| >= 2
      && !Chosen(selection, FindByTitle(ordered, "Color").value.id)
      ==> !ShowOtherOptions(ordered, materials, selection)
    ensures ShowOtherOptions(ordered, materials, selection[FindByTitle(ordered, "Color").value.id := colour])
  {
    var mId := FindByTitle(ordered, "Material").value.id;
    var cId := FindByTitle(ordered, "Color").value.id;
    var next := selection[cId := colour];
    assert next[mId] == selection[mId];
    var m :| m in materials && m.name == selection[mId];
    assert m in materials && m.name == next[mId];
  }

  /** The values of `values` that are non-empty, in order. */
  function NonEmptyValues(values: seq<OptionValue>): (r: seq<OptionValue>)
    ensures forall v :: v in r <==> v in values && v.value != ""
    ensures |r| <= |values|
    ensures |values| == 1 ==> r == if values[0].value != "" then values else []
  {
    if values == [] then []
    else
      assert forall v :: v in values ==> v == values[0] || v in values[1..];
      (if values[0].value != "" then [values[0]] else []) + NonEmptyValues(values[1..])
  }

  /** The value filter works piece by piece, so the picker lists the kept values in their order. */
  lemma {:induction false} NonEmptyValuesAppend(a: seq<OptionValue>, b: seq<OptionValue>)
    ensures NonEmptyValues(a + b) == NonEmptyValues(a) + NonEmptyValues(b)
    decreases |a|
  {
    if a == [] {
      assert a + b == b;
    } else {
      assert (a + b)[0] == a[0] && (a + b)[1..] == a[1..] + b;
      NonEmptyValuesAppend(a[1..], b);
    }
  }

  /** The values an other-option picker offers: `(option.values ?? [])` without empty values. */
  function OfferedValues(o: ProductOption): (r: seq<OptionValue>)
    ensures o.values.None? ==> r == []
    ensures o.values.Some? ==> r == NonEmptyValues(o.values.value)
    ensures forall v :: v in r <==> o.values.Some? && v in o.values.value && v.value != ""
  {
    NonEmptyValues(o.values.GetOr([]))
  }

  /** The ids of `os`, in order. */
  function Ids(os: seq<ProductOption>): (ids: seq<string>)
    ensures |ids| == |os|
    ensures forall i :: 0 <= i < |os| ==> ids[i] == os[i].id
  {
    seq(|os|, i requires 0 <= i < |os| => os[i].id)
  }

  /** The material picker and, once a material is selected, the colour picker; only when both options exist. */
  function DedicatedPickers(ordered: seq<ProductOption>, materials: seq<Material>,
                            selection: map<string, string>): (ids: seq<string>)
    ensures FindByTitle(ordered, "Material").None? || FindByTitle(ordered, "Color").None? ==> ids == []
    ensures FindByTitle(ordered, "Material").Some? && FindByTitle(ordered, "Color").Some? ==>
      ids == [FindByTitle(ordered, "Material").value.id]
        + if SelectedMaterial(ordered, materials, selection).Some? then [FindByTitle(ordered, "Color").value.id] else []
  {
    var m := FindByTitle(ordered, "Material");
    var c := FindByTitle(ordered, "Color");
    if m.Some? && c.Some? then
      [m.value.id] + if SelectedMaterial(ordered, materials, selection).Some? then [c.value.id] else []
    else []
  }

  /** The other options' pickers, in option order, when they are shown. */
  function OtherPickers(ordered: seq<ProductOption>, materials: seq<Material>,
                        selection: map<string, string>): (ids: seq<string>)
    ensures ShowOtherOptions(ordered, materials, selection) ==> ids == Ids(OtherOptions(ordered))
    ensures !ShowOtherOptions(ordered, materials, selection) ==> ids == []
    ensures forall id :: id in ids ==> exists o :: o in ordered && o.id == id
    ensures FindByTitle(ordered, "Material").Some? && FindByTitle(ordered, "Color").Some? ==>
      forall id :: id in ids ==> (id != FindByTitle(ordered, "Material").value.id
        && id != FindByTitle(ordered, "Color").value.id)
  {
    var others := if ShowOtherOptions(ordered, materials, selection) then OtherOptions(ordered) else [];
    assert forall i :: 0 <= i < |others| ==> others[i] in others && others[i] in ordered;
    Ids(others)
  }

  /**
   * The ids of the options whose pickers are shown, in display order: with
   * more than one variant, the material picker and (once a material is
   * selected) the colour picker when both options exist, then the other
   * options' pickers when they are shown.
   */
  function VisiblePickers(variants: Option<seq<Variant>>, ordered: seq<ProductOption>,
                          materials: seq<Material>, selection: map<string, string>): (ids: seq<string>)
    ensures |variants.GetOr([])| <= 1 ==> ids == []
    ensures forall id :: id in ids ==> exists o :: o in ordered && o.id == id
    ensures (FindByTitle(ordered, "Color").Some? && FindByTitle(ordered, "Material").Some?
      && SelectedMaterial(ordered, materials, selection).None?) ==>
      forall id :: id in ids ==> id == FindByTitle(ordered, "Material").value.id
    ensures |variants.GetOr([])| > 1 && (FindByTitle(ordered, "Material").None? || FindByTitle(ordered, "Color").None?)
      ==> ids == Ids(ordered)
    ensures |variants.GetOr([])| > 1 && FindByTitle(ordered, "Material").Some? && FindByTitle(ordered, "Color").Some?
      ==> |ids| >= 1 && ids[0] == FindByTitle(ordered, "Material").value.id
    ensures |variants.GetOr([])| > 1 && FindByTitle(ordered, "Material").Some? && FindByTitle(ordered, "Color").Some?
      && FindByTitle(ordered, "Material").value.id != FindByTitle(ordered, "Color").value.id
      ==> (FindByTitle(ordered, "Color").value.id in ids <==> SelectedMaterial(ordered, materials, selection).Some?)
    ensures |variants.GetOr([])| > 1 && ShowOtherOptions(ordered, materials, selection) ==>
      |ids| >= |OtherOptions(ordered)| && ids[|ids| - |OtherOptions(ordered)|..] == Ids(OtherOptions(ordered))
    ensures !ShowOtherOptions(ordered, materials, selection) ==> |ids| <= 2
    ensures |variants.GetOr([])| > 1 ==>
      ids == DedicatedPickers(ordered, materials, selection) + OtherPickers(ordered, materials, selection)
  {
    if |variants.GetOr([])| <= 1 then []
    else
      var dedicated := DedicatedPickers(ordered, materials, selection);
      var others := OtherPickers(ordered, materials, selection);
      var ids := dedicated + others;
      assert ids[|dedicated|..] == others;
      assert forall id :: id in ids <==> id in dedicated || id in others;
      ids
  }

  // ---------------------------------------------------------------------
  // Component state
  // ---------------------------------------------------------------------

  /** The state of one `ProductActions` component and its handlers. */
  class ProductActionsState {
    const variants: Option<seq<Variant>>
    const disabled: bool
    const countryCode: string
    /** The selected value per option id (the component's `options`). */
    var options: map<string, string>
    var quantity: int
    var isAdding: bool

    constructor (variants: Option<seq<Variant>>, disabled: bool, countryCode: string)
      ensures this.variants == variants && this.disabled == disabled && this.countryCode == countryCode
      ensures options == map[] && quantity == 1 && !isAdding
    {
      this.variants := variants;
      this.disabled := disabled;
      this.countryCode := countryCode;
      options := map[];
      quantity := 1;
      isAdding := false;
    }

    function Selected(): Option<Variant>
      reads this
    {
      SelectedVariant(variants, options)
    }

    /** The effect run when the variants change: with exactly one variant, select its options. */
    method PreselectSingleVariant()
      modifies this`options
      ensures variants.Some? && |variants.value| == 1 ==>
        options == Keymap(variants.value[0].options).GetOr(map[])
      ensures variants.Some? && |variants.value| == 1 && variants.value[0].options.Some? ==>
        Selected() == Some(variants.value[0])
      ensures !(variants.Some? && |variants.value| == 1) ==> options == old(options)
    {
      if variants.Some? && |variants.value| == 1 {
        var keymap := OptionsAsKeymap(variants.value[0].options);
        options := keymap.GetOr(map[]);
        SingleVariantPreselected(variants.value[0]);
        assert variants.value == [variants.value[0]];
      }
    }

    /** `setOptionValue(optionId, value)`: sets one key, keeps every other selected key. */
    method SetOptionValue(optionId: string, value: string)
      modifies this`options
      ensures options == old(options)[optionId := value]
      ensures forall k :: k != optionId ==> (k in options <==> k in old(options))
      ensures forall k :: k != optionId && k in options ==> options[k] == old(options)[k]
    {
      options := options[optionId := value];
    }

    /** The quantity field's `onChange`. */
    method SetQuantity(q: int)
      modifies this`quantity
      ensures quantity == q
    {
      quantity := q;
    }

    /**
     * `handleAddToCart`: without a selected variant id it does nothing;
     * otherwise it marks the component busy and asks for the variant to be
     * added in the chosen quantity. `succeeded` says whether `addToCart`
     * resolved: only then is the busy flag cleared, and after a rejection
     * the component stays busy and its button disabled.
     */
    method HandleAddToCart(succeeded: bool) returns (request: Option<AddToCartRequest>)
      modifies this`isAdding
      ensures request.None? <==> Selected().None? || Selected().value.id == ""
      ensures request.Some? ==> request.value == AddToCartRequest(Selected().value.id, quantity, countryCode)
      ensures request.Some? ==> isAdding == !succeeded
      ensures request.Some? && !succeeded ==> AddToCartDisabled(Selected(), disabled, isAdding)
      ensures request.None? ==> isAdding == old(isAdding)
    {
      var selected := SelectedVariant(variants, options);
      if selected.None? || selected.value.id == "" {
        return None;
      }
      isAdding := true;
      request := Some(AddToCartRequest(selected.value.id, quantity, countryCode));
      if succeeded {
        isAdding := false;
      }
    }
  }
}
