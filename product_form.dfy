/**
 * The admin product form's schema (productFormSchema): field limits, the
 * image checks, the price rules and the two cross-field refinements. The
 * numeric text fields reach the schema already parsed: `Blank` for an empty
 * or missing text, `NaN` for text parseFloat/parseInt cannot read, `Num`
 * otherwise.
 */
module ProductForm {
  import opened Wrappers
  import opened Seqs
  import Slugs

  const MaxFileSizeBytes: nat := 10 * 1024 * 1024
  const AcceptedImageTypes: set<string> := {"image/jpeg", "image/png", "image/webp", "image/gif"}
  const MaxGalleryImages: nat := 5

  /** A picked file: its size in bytes and its MIME type ("" when the browser gives none). */
  datatype File = File(size: nat, mime: string)

  datatype NumberInput = Blank | NaN | Num(value: real)

  datatype PriceType = Fixed | PerKg | PerServing

  datatype VariantInput = VariantInput(
    size: Option<int>,
    priceModifier: NumberInput,
    weightOverride: NumberInput,
    sku: Option<string>,
    stock: NumberInput,
    activeForProduct: bool)

  datatype ProductInput = ProductInput(
    name: string,
    slug: string,
    categoryId: NumberInput,
    shortDescription: Option<string>,
    mainImage: Option<seq<File>>,
    gallery: Option<seq<File>>,
    basePriceText: string,
    basePrice: NumberInput,
    priceType: Option<string>,
    salePrice: NumberInput,
    scheduleEnabled: bool,
    saleStart: Option<int>,
    saleEnd: Option<int>,
    variants: seq<VariantInput>,
    tags: seq<string>,
    metaTitle: Option<string>,
    metaDescription: Option<string>)

  predicate IsInteger(x: real) { x.Floor as real == x }

  predicate NameOk(name: string) { 3 <= |name| <= 200 }

  predicate SlugOk(slug: string) { 3 <= |slug| <= 220 && Slugs.Shaped(slug) }

  /** `z.coerce.number().int().min(1)`. */
  predicate CategoryIdOk(id: NumberInput) { id.Num? && IsInteger(id.value) && id.value >= 1.0 }

  predicate MainImageOk(files: Option<seq<File>>)
  {
    files.None? || files.value == []
    || (files.value[0].size <= MaxFileSizeBytes && files.value[0].mime in AcceptedImageTypes)
  }

  /** What the gallery's three refinements accept together. */
  predicate GalleryOk(files: Option<seq<File>>)
  {
    files.None?
    || (|files.value| <= MaxGalleryImages
        && (forall i :: 0 <= i < |files.value| ==> files.value[i].size <= MaxFileSizeBytes)
        && (forall i :: 0 <= i < |files.value| ==> files.value[i].mime in AcceptedImageTypes))
  }

  /**
   * The gallery refinements as the schema runs them: a count check, then
   * two loops that stop at the first file that is too large or of the wrong
   * type.
   */
  method CheckGallery(files: Option<seq<File>>) returns (countOk: bool, sizesOk: bool, typesOk: bool)
    ensures countOk <==> files.None? || |files.value| <= MaxGalleryImages
    ensures sizesOk <==> files.None? || forall i :: 0 <= i < |files.value| ==> files.value[i].size <= MaxFileSizeBytes
    ensures typesOk <==> files.None? || forall i :: 0 <= i < |files.value| ==> files.value[i].mime in AcceptedImageTypes
    ensures countOk && sizesOk && typesOk <==> GalleryOk(files)
  {
    countOk := files.None? || |files.value| <= MaxGalleryImages;
    sizesOk := true;
    typesOk := true;
    if files.None? || files.value == [] {
      return;
    }
    var fs := files.value;
    var i := 0;
    while i < |fs|
      invariant 0 <= i <= |fs|
      invariant forall k :: 0 <= k < i ==> fs[k].size <= MaxFileSizeBytes
    {
      if fs[i].size > MaxFileSizeBytes {
        sizesOk := false;
        break;
      }
      i := i + 1;
    }
    i := 0;
    while i < |fs|
      invariant 0 <= i <= |fs|
      invariant forall k :: 0 <= k < i ==> fs[k].mime in AcceptedImageTypes
    {
      if fs[i].mime == "" || fs[i].mime !in AcceptedImageTypes {
        typesOk := false;
        break;
      }
      i := i + 1;
    }
  }

  /** `stringToPositiveFloatRequired`: non-empty text that parses to a positive number. */
  predicate BasePriceOk(text: string, parsed: NumberInput)
  {
    |text| >= 1 && parsed.Num? && parsed.value > 0.0
  }

  /** `stringToPositiveFloatOptional`: blank, or a positive number. */
  predicate PositiveOptional(x: NumberInput) { x.Blank? || (x.Num? && x.value > 0.0) }

  /** `stringToFloatOptional`: blank, or any number. */
  predicate NumberOptional(x: NumberInput) { !x.NaN? }

  /** `stringToIntegerMinZeroOptional`: blank, or a whole number of at least 0. */
  predicate CountOptional(x: NumberInput) { x.Blank? || (x.Num? && IsInteger(x.value) && x.value >= 0.0) }

  /** `z.enum([...]).default('FIXED')`: a missing price type becomes FIXED, an unknown one is refused. */
  function PriceTypeOf(raw: Option<string>): (r: Option<PriceType>)
    ensures raw.None? ==> r == Some(Fixed)
    ensures r.None? <==> raw.Some? && raw.value !in {"FIXED", "PER_KG", "PER_SERVING"}
    ensures raw == Some("PER_KG") <==> r == Some(PerKg)
    ensures raw == Some("PER_SERVING") <==> r == Some(PerServing)
  {
    match raw
    case None => Some(Fixed)
    case Some(s) =>
      if s == "FIXED" then Some(Fixed)
      else if s == "PER_KG" then Some(PerKg)
      else if s == "PER_SERVING" then Some(PerServing)
      else None
  }

  predicate VariantOk(v: VariantInput)
  {
    v.size.Some? && NumberOptional(v.priceModifier) && PositiveOptional(v.weightOverride)
    && (v.sku.None? || |v.sku.value| <= 50) && CountOptional(v.stock)
  }

  /** The variant sizes, with a missing size as None. */
  function VariantSizes(vs: seq<VariantInput>): (r: seq<Option<int>>)
    ensures |r| == |vs| && forall i :: 0 <= i < |vs| ==> r[i] == vs[i].size
  {
    if vs == [] then [] else [vs[0].size] + VariantSizes(vs[1..])
  }

  /** The size refinement: `new Set(sizeIds).size === sizeIds.length`. */
  predicate SizesUnique(sizes: seq<Option<int>>)
  {
    sizes == [] || |Elems(sizes)| == |sizes|
  }

  /** The set-size comparison accepts exactly the variant lists in which no size repeats. */
  lemma SizesUniqueIffDistinct(sizes: seq<Option<int>>)
    ensures SizesUnique(sizes) <==> forall i, j :: 0 <= i < j < |sizes| ==> sizes[i] != sizes[j]
  {
    DistinctCard(sizes);
  }

  predicate TagsOk(tags: seq<string>) { forall i :: 0 <= i < |tags| ==> 1 <= |tags[i]| <= 50 }

  predicate AtMost(s: Option<string>, n: nat) { s.None? || |s.value| <= n }

  /** `!sale_price || base_price > sale_price`: a positive sale price lies below the base price. */
  predicate SaleBelowBase(base: NumberInput, sale: NumberInput)
  {
    !(sale.Num? && sale.value != 0.0) || (base.Num? && base.value > sale.value)
  }

  /** With scheduling on, both dates with start before end, or neither date. */
  predicate ScheduleOk(enabled: bool, start: Option<int>, end: Option<int>)
  {
    !enabled || (start.Some? && end.Some? && start.value < end.value) || (start.None? && end.None?)
  }

  /** The schema accepts the form. */
  predicate Accepted(f: ProductInput)
  {
    && NameOk(f.name)
    && SlugOk(f.slug)
    && CategoryIdOk(f.categoryId)
    && AtMost(f.shortDescription, 500)
    && MainImageOk(f.mainImage)
    && GalleryOk(f.gallery)
    && BasePriceOk(f.basePriceText, f.basePrice)
    && PriceTypeOf(f.priceType).Some?
    && PositiveOptional(f.salePrice)
    && (forall i :: 0 <= i < |f.variants| ==> VariantOk(f.variants[i]))
    && SizesUnique(VariantSizes(f.variants))
    && TagsOk(f.tags)
    && AtMost(f.metaTitle, 70)
    && AtMost(f.metaDescription, 160)
    && SaleBelowBase(f.basePrice, f.salePrice)
    && ScheduleOk(f.scheduleEnabled, f.saleStart, f.saleEnd)
  }

  /**
   * What an accepted form guarantees about the product it describes: every
   * size is chosen and chosen once, a sale price is positive and below the
   * positive base price, and a scheduled sale has a proper date range or none.
   */
  lemma AcceptedProductConsistent(f: ProductInput)
    requires Accepted(f)
    ensures forall i :: 0 <= i < |f.variants| ==> f.variants[i].size.Some?
    ensures forall i, j :: 0 <= i < j < |f.variants| ==> f.variants[i].size != f.variants[j].size
    ensures f.basePrice.Num? && f.basePrice.value > 0.0
    ensures f.salePrice.Num? ==> 0.0 < f.salePrice.value < f.basePrice.value
    ensures f.scheduleEnabled && (f.saleStart.Some? || f.saleEnd.Some?) ==>
              f.saleStart.Some? && f.saleEnd.Some? && f.saleStart.value < f.saleEnd.value
  {
    var sizes := VariantSizes(f.variants);
    SizesUniqueIffDistinct(sizes);
    forall i, j | 0 <= i < j < |f.variants|
      ensures f.variants[i].size != f.variants[j].size
    {
      assert sizes[i] == f.variants[i].size && sizes[j] == f.variants[j].size;
    }
  }

  /** A slug the name button generates passes the slug rule whenever its length is within 3..220. */
  lemma GeneratedSlugPasses(name: string, current: string)
    requires name != ""
    requires 3 <= |Slugs.ProductSlugField(name, current)| <= 220
    ensures SlugOk(Slugs.ProductSlugField(name, current))
  {
  }
}
