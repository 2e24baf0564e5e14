/** The add/edit product form: the editable draft, its pricing-tier list
    operations, the ordered validation on submit and the assembly of the
    product handed to the save callback. */
module ProductForm {
  import opened Options
  import opened Catalog
  import opened Text

  /** A pricing tier while it is being edited: it has no id yet. */
  datatype TierDraft = TierDraft(moq: int, price: real)

  /** The form's fields. */
  datatype Draft = Draft(
    name: string, description: string, category: string,
    availableQuantity: int, imageUrl: string, tiers: seq<TierDraft>)

  const PlaceholderImage: string := "/api/placeholder/100/100"

  /** The tier appended by "add tier", and the single tier of a fresh form. */
  const DefaultTier: TierDraft := TierDraft(1, 0.0)

  const NameRequired: string := "Product name is required"
  const CategoryRequired: string := "Category is required"
  const TierRequired: string := "At least one pricing tier is required"

  /** A fresh form. */
  function EmptyDraft(): (d: Draft)
    ensures d.tiers == [DefaultTier] && d.name == "" && d.imageUrl == PlaceholderImage
  {
    Draft("", "", "", 0, PlaceholderImage, [DefaultTier])
  }

  /** The tier drafts of a product: its tiers without their ids. */
  function TierDrafts(tiers: seq<PricingTier>): (r: seq<TierDraft>)
    ensures |r| == |tiers|
    ensures forall i :: 0 <= i < |tiers| ==> r[i].moq == tiers[i].moq && r[i].price == tiers[i].price
  {
    seq(|tiers|, i requires 0 <= i < |tiers| => TierDraft(tiers[i].moq, tiers[i].price))
  }

  /** Filling the form from the product being edited; when adding, or with
      no product, the fields are left as they are. */
  function Load(d: Draft, product: Option<Product>, isAdding: bool): (r: Draft)
    ensures product.None? || isAdding ==> r == d
    ensures product.Some? && !isAdding ==>
      && r.name == product.value.name && r.category == product.value.category
      && r.description == product.value.description
      && r.availableQuantity == product.value.available_quantity
      && r.imageUrl == product.value.image_url
      && r.tiers == TierDrafts(product.value.pricing_tiers)
  {
    if product.Some? && !isAdding then
      var p := product.value;
      Draft(p.name, p.description, p.category, p.available_quantity, p.image_url, TierDrafts(p.pricing_tiers))
    else d
  }

  // ---------------------------------------------------------------------
  // Pricing tier editing
  // ---------------------------------------------------------------------

  /** Which field of a tier an edit sets, with the new value. */
  datatype TierEdit = SetMoq(moq: int) | SetPrice(price: real)

  /** Applying an edit to one tier. */
  function ApplyEdit(t: TierDraft, e: TierEdit): (r: TierDraft)
    ensures e.SetMoq? ==> r.moq == e.moq && r.price == t.price
    ensures e.SetPrice? ==> r.price == e.price && r.moq == t.moq
  {
    match e
    case SetMoq(m) => t.(moq := m)
    case SetPrice(p) => t.(price := p)
  }

  /** Changing one field of the tier at position `i` (a tier shown in the form). */
  function ChangeTier(tiers: seq<TierDraft>, i: nat, e: TierEdit): (r: seq<TierDraft>)
    requires i < |tiers|
    ensures |r| == |tiers|
    ensures forall j :: 0 <= j < |tiers| && j != i ==> r[j] == tiers[j]
    ensures e.SetMoq? ==> r[i].moq == e.moq && r[i].price == tiers[i].price
    ensures e.SetPrice? ==> r[i].price == e.price && r[i].moq == tiers[i].moq
  {
    tiers[i := ApplyEdit(tiers[i], e)]
  }

  /** A later edit of the same field overrides an earlier one. */
  lemma ChangeTierLastWins(tiers: seq<TierDraft>, i: nat, v1: real, v2: real)
    requires i < |tiers|
    ensures ChangeTier(ChangeTier(tiers, i, SetPrice(v1)), i, SetPrice(v2)) == ChangeTier(tiers, i, SetPrice(v2))
  {
  }

  /** Appending a fresh tier. */
  function AddTier(tiers: seq<TierDraft>): (r: seq<TierDraft>)
    ensures |r| == |tiers| + 1
    ensures r[..|tiers|] == tiers && r[|tiers|] == DefaultTier
  {
    tiers + [DefaultTier]
  }

  /** Removing the tier at position `i`, unless it is the only tier left; an
      index that names no tier removes nothing. */
  function RemoveTier(tiers: seq<TierDraft>, i: int): (r: seq<TierDraft>)
    ensures |tiers| <= 1 ==> r == tiers
    ensures |tiers| > 1 && 0 <= i < |tiers| ==> |r| == |tiers| - 1
    ensures |tiers| > 1 && 0 <= i < |tiers| ==>
      forall j :: 0 <= j < |r| ==> r[j] == (if j < i then tiers[j] else tiers[j + 1])
    ensures (i < 0 || i >= |tiers|) ==> r == tiers
    ensures |tiers| >= 1 ==> |r| >= 1
  {
    if |tiers| > 1 && 0 <= i < |tiers| then tiers[..i] + tiers[i + 1..] else tiers
  }

  /** Removing the tier just added restores the list. */
  lemma RemoveUndoesAdd(tiers: seq<TierDraft>)
    requires |tiers| >= 1
    ensures RemoveTier(AddTier(tiers), |tiers|) == tiers
  {
    assert AddTier(tiers)[..|tiers|] == tiers;
  }

  /** However many removals are applied, a non-empty tier list stays non-empty. */
  lemma {:induction false} RemovalsNeverEmpty(tiers: seq<TierDraft>, indices: seq<int>)
    requires |tiers| >= 1
    ensures |RemoveAll(tiers, indices)| >= 1
    decreases |indices|
  {
    if indices != [] {
      RemovalsNeverEmpty(RemoveTier(tiers, indices[0]), indices[1..]);
    }
  }

  /** Removing the tiers at the given positions, one after another. */
  function RemoveAll(tiers: seq<TierDraft>, indices: seq<int>): seq<TierDraft>
    decreases |indices|
  {
    if indices == [] then tiers else RemoveAll(RemoveTier(tiers, indices[0]), indices[1..])
  }

  // ---------------------------------------------------------------------
  // Submission
  // ---------------------------------------------------------------------

  /** The product handed to the save callback. `id` and `created_at` are
      absent when adding (and when editing without a product). */
  datatype Payload = Payload(
    name: string, description: string, category: string, available_quantity: int,
    image_url: string, pricing_tiers: seq<PricingTier>, vendor_id: int,
    id: Option<int>, created_at: Option<string>)

  /** The drafts as pricing tiers: tier `i` keeps the id of the product's tier
      `i` when the product has one, and is numbered `i + 1` otherwise. */
  function FormatTiers(tiers: seq<TierDraft>, product: Option<Product>): (r: seq<PricingTier>)
    ensures |r| == |tiers|
    ensures forall i :: 0 <= i < |tiers| ==> r[i].moq == tiers[i].moq && r[i].price == tiers[i].price
    ensures forall i :: 0 <= i < |tiers| ==>
      r[i].id == if product.Some? && i < |product.value.pricing_tiers|
                 then product.value.pricing_tiers[i].id else i + 1
  {
    seq(|tiers|, i requires 0 <= i < |tiers| =>
      PricingTier(
        if product.Some? && i < |product.value.pricing_tiers| then product.value.pricing_tiers[i].id else i + 1,
        tiers[i].moq, tiers[i].price))
  }

  /** `product?.vendor_id || 1`: a missing product or a zero vendor id gives 1. */
  function VendorId(product: Option<Product>): (v: int)
    ensures v != 0
    ensures product.Some? && product.value.vendor_id != 0 ==> v == product.value.vendor_id
    ensures product.None? || product.value.vendor_id == 0 ==> v == 1
  {
    if product.Some? && product.value.vendor_id != 0 then product.value.vendor_id else 1
  }

  /** Submitting the form: the checks run in order (name, then category,
      then at least one tier) and the first failing one rejects with its
      message; otherwise the product to save is assembled. */
  function Submit(d: Draft, product: Option<Product>, isAdding: bool): (r: Result<Payload, string>)
    ensures r == Err(NameRequired) <==> IsBlank(d.name)
    ensures r == Err(CategoryRequired) <==> !IsBlank(d.name) && IsBlank(d.category)
    ensures r == Err(TierRequired) <==> !IsBlank(d.name) && !IsBlank(d.category) && d.tiers == []
    ensures r.Ok? <==> !IsBlank(d.name) && !IsBlank(d.category) && d.tiers != []
    ensures r.Ok? ==>
      && r.value.name == d.name && r.value.description == d.description
      && r.value.category == d.category && r.value.available_quantity == d.availableQuantity
      && r.value.image_url == d.imageUrl && r.value.vendor_id == VendorId(product)
      && |r.value.pricing_tiers| == |d.tiers|
    ensures r.Ok? ==> r.value.pricing_tiers == FormatTiers(d.tiers, product)
    ensures r.Ok? && isAdding ==> r.value.id.None? && r.value.created_at.None?
    ensures r.Ok? && !isAdding && product.Some? ==>
      r.value.id == Some(product.value.id) && r.value.created_at == Some(product.value.created_at)
  {
    TrimEmptyIffBlank(d.name);
    TrimEmptyIffBlank(d.category);
    if Trim(d.name) == "" then Err(NameRequired)
    else if Trim(d.category) == "" then Err(CategoryRequired)
    else if |d.tiers| == 0 then Err(TierRequired)
    else
      var id := if !isAdding && product.Some? then Some(product.value.id) else None;
      var createdAt := if !isAdding && product.Some? then Some(product.value.created_at) else None;
      Ok(Payload(d.name, d.description, d.category, d.availableQuantity, d.imageUrl,
                 FormatTiers(d.tiers, product), VendorId(product), id, createdAt))
  }

  /** The product as the save callback receives it when it is edited without changes. */
  function Unchanged(p: Product): Payload {
    Payload(p.name, p.description, p.category, p.available_quantity, p.image_url,
            p.pricing_tiers, if p.vendor_id != 0 then p.vendor_id else 1,
            Some(p.id), Some(p.created_at))
  }

  /** Opening a valid product for editing and saving at once hands back the
      same product: every tier keeps its id, moq and price by position. */
  lemma EditRoundTrip(d: Draft, p: Product)
    requires !IsBlank(p.name) && !IsBlank(p.category) && p.pricing_tiers != []
    ensures Submit(Load(d, Some(p), false), Some(p), false) == Ok(Unchanged(p))
  {
    var loaded := Load(d, Some(p), false);
    assert loaded.tiers == TierDrafts(p.pricing_tiers);
    TiersSurviveEdit(p);
    var r := Submit(loaded, Some(p), false);
    assert r.Ok?;
    assert r.value.pricing_tiers == FormatTiers(loaded.tiers, Some(p));
  }

  /** Tiers taken into the form and formatted back for the same product are
      the product's tiers. */
  lemma TiersSurviveEdit(p: Product)
    ensures FormatTiers(TierDrafts(p.pricing_tiers), Some(p)) == p.pricing_tiers
  {
    var r := FormatTiers(TierDrafts(p.pricing_tiers), Some(p));
    forall i | 0 <= i < |r|
      ensures r[i] == p.pricing_tiers[i]
    {
    }
  }
}
