/**
 * The product catalog's records (products/models.py): categories, cakes, sizes,
 * per-cake size variants, party supplies, tags, gallery images, wishlist entries
 * and reviews, with the properties the model layer computes from them.
 * Decimal columns are exact `real`s.
 */
module ProductsModel {
  import opened Wrappers

  datatype PriceType = Fixed | PerKg | PerServing

  datatype Category = Category(name: string, slug: string, isActive: bool)

  datatype Size = Size(name: string, estimatedWeightKg: Option<real>, priceModifier: real, isActive: bool)

  /** A cake's offer of one size; `priceModifier` is a NOT NULL column with default 0. */
  datatype SizeVariant = SizeVariant(
    cakeId: nat, sizeId: nat, priceModifier: real, weightOverride: Option<real>, isActiveForProduct: bool)

  datatype Cake = Cake(
    name: string, slug: string, categoryId: Option<nat>, basePrice: real, priceType: PriceType,
    flavorIds: set<nat>, tagIds: set<nat>, isActive: bool, createdAt: int, reviewCount: nat)

  datatype PartySupply = PartySupply(name: string, slug: string, price: real, isActive: bool)

  datatype ProductImage = ProductImage(cakeId: nat, file: string)

  datatype WishlistItem = WishlistItem(userId: nat, productId: nat)

  datatype Review = Review(productId: nat, userId: nat, rating: nat, comment: Option<string>)

  /** Column defaults of a new Size and a new variant. */
  const DefaultPriceModifier: real := 0.0

  function NewSize(name: string): (s: Size)
    ensures s.name == name && s.priceModifier == 0.0 && s.estimatedWeightKg.None? && s.isActive
  {
    Size(name, None, DefaultPriceModifier, true)
  }

  function NewVariant(cakeId: nat, sizeId: nat): (v: SizeVariant)
    ensures v.cakeId == cakeId && v.sizeId == sizeId && v.priceModifier == 0.0
    ensures v.weightOverride.None? && v.isActiveForProduct
  {
    SizeVariant(cakeId, sizeId, DefaultPriceModifier, None, true)
  }

  /** CakeSizeVariant.final_price: the cake's base price plus the variant's modifier. */
  function FinalPrice(cake: Cake, v: SizeVariant): real
  {
    cake.basePrice + v.priceModifier
  }

  /** CakeSizeVariant.final_weight: the override when it is set at all (zero included), else the size's weight. */
  function FinalWeight(v: SizeVariant, size: Size): (w: Option<real>)
    ensures v.weightOverride.Some? ==> w == v.weightOverride
    ensures v.weightOverride.None? ==> w == size.estimatedWeightKg
  {
    if v.weightOverride.Some? then v.weightOverride else size.estimatedWeightKg
  }

  /** A variant costs more than its cake's base price exactly when its modifier is positive. */
  lemma FinalPriceAboveBase(cake: Cake, v: SizeVariant)
    ensures FinalPrice(cake, v) > cake.basePrice <==> v.priceModifier > 0.0
    ensures FinalPrice(cake, v) == cake.basePrice <==> v.priceModifier == 0.0
  {
  }

  /** unique_together (cake, size): a cake offers each size at most once. */
  ghost predicate VariantsUnique(variants: map<nat, SizeVariant>)
  {
    forall a, b :: a in variants && b in variants && a != b ==>
      variants[a].cakeId != variants[b].cakeId || variants[a].sizeId != variants[b].sizeId
  }

  /** unique_together (user, product) of the wishlist. */
  ghost predicate WishlistUnique(w: map<nat, WishlistItem>)
  {
    forall a, b :: a in w && b in w && a != b ==> w[a] != w[b]
  }

  /** unique_together (product, user) of reviews, and the 1..5 rating choices. */
  ghost predicate ReviewsValid(r: map<nat, Review>)
  {
    (forall a :: a in r ==> 1 <= r[a].rating <= 5)
    && (forall a, b :: a in r && b in r && a != b ==>
          r[a].productId != r[b].productId || r[a].userId != r[b].userId)
  }

  /**
   * The slug rule of Category.save and Cake.save: an empty slug is replaced by the
   * slugified name; a slug that is already set is kept.
   */
  function SlugOnSave(slug: string, slugifiedName: string): (r: string)
    ensures slug != "" ==> r == slug
    ensures slug == "" ==> r == slugifiedName
  {
    if slug == "" then slugifiedName else slug
  }

  /** Saving twice never changes a slug the first save settled on, whatever the name has become. */
  lemma SlugOnSaveStable(slug: string, first: string, later: string)
    requires slug != "" || first != ""
    ensures SlugOnSave(SlugOnSave(slug, first), later) == SlugOnSave(slug, first)
  {
  }
}
