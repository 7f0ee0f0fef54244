/**
 * The catalog tables as the product views and serializers change them
 * (products/views.py, products/serializers.py): tags, cakes with their size
 * variants and gallery images, wishlist entries and reviews. Each request
 * handler is a method of `Store`; a handler wrapped in `transaction.atomic`
 * either makes all of its changes or, on any error, none.
 */
module Catalog {
  import opened Wrappers
  import opened Text
  import opened Seqs
  import opened ProductsModel
  import opened CatalogRequests

  /** The HTTP answers the catalog handlers give. */
  datatype Reply = Ok | Created | Exists | NoContent | BadRequest | NotFound | ServerError

  /** One object of the `size_variants_json` array: the `size` key (absent = None) and the optional columns. */
  datatype VariantEntry = VariantEntry(
    size: Option<int>, priceModifier: Option<real>, weightOverride: Option<real>, isActive: Option<bool>, id: Option<int>)

  /** The `size_variants_json` text: blank, not a JSON array of objects, or the parsed entries. */
  datatype VariantsText = BlankText | MalformedJson | EntryList(entries: seq<VariantEntry>)

  /**
   * The comment a new review stores: the model's `TextField(blank=True,
   * null=True)` becomes an optional CharField, so a comment left out falls to
   * the column's null default, null stays null and text is stripped.
   */
  function StoredComment(f: Field<Option<string>>): (r: Option<string>)
    ensures f.Absent? ==> r.None?
    ensures f.Present? ==> r == StripNullable(f.value)
    ensures r.Some? ==> f == Present(Some(f.value.value)) && |r.value| <= |f.value.value|
  {
    if f.Present? then StripNullable(f.value) else None
  }

  /** The variant row `CakeSizeVariant.objects.create` makes from one entry; absent columns take their defaults. */
  function EntryRow(cakeId: nat, e: VariantEntry): (v: SizeVariant)
    requires e.size.Some? && e.size.value >= 0
    ensures v.cakeId == cakeId && v.sizeId == e.size.value
    ensures e.priceModifier.None? ==> v.priceModifier == DefaultPriceModifier
    ensures e.isActive.None? ==> v.isActiveForProduct
  {
    SizeVariant(cakeId, e.size.value as nat, e.priceModifier.GetOr(DefaultPriceModifier), e.weightOverride,
                e.isActive.GetOr(true))
  }

  /**
   * Entries every one of which can be stored: the `size` key is there and names
   * an existing size (else KeyError or an integrity error), and no two entries
   * name the same size (unique_together).
   */
  predicate EntriesFit(es: seq<VariantEntry>, sizes: set<nat>)
  {
    (forall k :: 0 <= k < |es| ==> es[k].size.Some? && es[k].size.value >= 0 && es[k].size.value as nat in sizes)
    && (forall i, j :: 0 <= i < j < |es| ==> es[i].size != es[j].size)
  }

  /** The rows a list of entries becomes, numbered from `first` on. */
  function VariantRows(first: nat, cakeId: nat, es: seq<VariantEntry>): map<nat, SizeVariant>
    requires forall k :: 0 <= k < |es| ==> es[k].size.Some? && es[k].size.value >= 0
  {
    if es == [] then map[]
    else VariantRows(first, cakeId, es[..|es| - 1])[first + |es| - 1 := EntryRow(cakeId, es[|es| - 1])]
  }

  function ImageRows(first: nat, cakeId: nat, files: seq<string>): map<nat, ProductImage>
  {
    if files == [] then map[]
    else ImageRows(first, cakeId, files[..|files| - 1])[first + |files| - 1 := ProductImage(cakeId, files[|files| - 1])]
  }

  /** The rows that survive deleting the cakes in `doomed`: on_delete=CASCADE removes every row of theirs. */
  function VariantsOutside(m: map<nat, SizeVariant>, doomed: set<nat>): map<nat, SizeVariant>
  {
    map k | k in m && m[k].cakeId !in doomed :: m[k]
  }

  /**
   * Some variant of a cake in `owners` is named by an order line. Those lines
   * hold their variant with on_delete=PROTECT, so deleting it raises
   * ProtectedError before any row goes.
   */
  predicate VariantsInUse(m: map<nat, SizeVariant>, owners: set<nat>, ordered: set<nat>)
  {
    exists k :: k in m && k in ordered && m[k].cakeId in owners
  }

  function ImagesOutside(m: map<nat, ProductImage>, doomed: set<nat>): map<nat, ProductImage>
  {
    map k | k in m && m[k].cakeId !in doomed :: m[k]
  }

  function WishesOutside(m: map<nat, WishlistItem>, doomed: set<nat>): map<nat, WishlistItem>
  {
    map k | k in m && m[k].productId !in doomed :: m[k]
  }

  function ReviewsOutside(m: map<nat, Review>, doomed: set<nat>): map<nat, Review>
  {
    map k | k in m && m[k].productId !in doomed :: m[k]
  }

  /** Deleting rows never breaks a uniqueness constraint. */
  lemma CascadeKeepsUnique(variants: map<nat, SizeVariant>, wishlist: map<nat, WishlistItem>,
                           reviews: map<nat, Review>, doomed: set<nat>)
    requires VariantsUnique(variants) && WishlistUnique(wishlist) && ReviewsValid(reviews)
    ensures VariantsUnique(VariantsOutside(variants, doomed))
    ensures WishlistUnique(WishesOutside(wishlist, doomed))
    ensures ReviewsValid(ReviewsOutside(reviews, doomed))
  {
  }

  /** The ids of the cakes `Cake.objects.filter(id__in=ids)` matches. */
  function Matching(cakes: map<nat, Cake>, ids: seq<int>): (r: set<nat>)
    ensures forall c :: c in r <==> c in cakes && c as int in ids
  {
    set c | c in cakes && c as int in ids
  }

  /** The ids of the reviews of one cake, and their number. */
  function ReviewsOf(reviews: map<nat, Review>, cakeId: nat): set<nat>
  {
    set k | k in reviews && reviews[k].productId == cakeId
  }

  function ReviewCount(reviews: map<nat, Review>, cakeId: nat): nat
  {
    |ReviewsOf(reviews, cakeId)|
  }

  /** A new review adds one to its cake's count and leaves every other cake's count alone. */
  lemma ReviewCountAfterAdd(reviews: map<nat, Review>, key: nat, r: Review)
    requires key !in reviews
    ensures ReviewCount(reviews[key := r], r.productId) == ReviewCount(reviews, r.productId) + 1
    ensures forall c :: c != r.productId ==> ReviewCount(reviews[key := r], c) == ReviewCount(reviews, c)
  {
    assert ReviewsOf(reviews[key := r], r.productId) == ReviewsOf(reviews, r.productId) + {key};
    forall c | c != r.productId
      ensures ReviewCount(reviews[key := r], c) == ReviewCount(reviews, c)
    {
      assert ReviewsOf(reviews[key := r], c) == ReviewsOf(reviews, c);
    }
  }

  /** The product ids a user has in the wishlist. */
  function Wished(wishlist: map<nat, WishlistItem>, userId: nat): set<nat>
  {
    set k | k in wishlist && wishlist[k].userId == userId :: wishlist[k].productId
  }

  /** `WishlistItem.objects.get_or_create(user=..., product=...)` on the table, with `key` the next id. */
  function AddWish(wishlist: map<nat, WishlistItem>, key: nat, item: WishlistItem): map<nat, WishlistItem>
  {
    if item in wishlist.Values then wishlist else wishlist[key := item]
  }

  /** `WishlistItem.objects.filter(user=..., product=...).delete()`. */
  function RemoveWish(wishlist: map<nat, WishlistItem>, item: WishlistItem): map<nat, WishlistItem>
  {
    map k | k in wishlist && wishlist[k] != item :: wishlist[k]
  }

  /**
   * Adding to the wishlist puts exactly that product on exactly that user's
   * list, keeps the table free of duplicates, and adding the same pair again
   * changes nothing.
   */
  lemma AddWishSound(wishlist: map<nat, WishlistItem>, key: nat, item: WishlistItem)
    requires WishlistUnique(wishlist) && key !in wishlist
    ensures WishlistUnique(AddWish(wishlist, key, item))
    ensures Wished(AddWish(wishlist, key, item), item.userId) == Wished(wishlist, item.userId) + {item.productId}
    ensures forall u :: u != item.userId ==> Wished(AddWish(wishlist, key, item), u) == Wished(wishlist, u)
    ensures forall key2 :: AddWish(AddWish(wishlist, key, item), key2, item) == AddWish(wishlist, key, item)
  {
    var w := AddWish(wishlist, key, item);
    assert item in w.Values by {
      if item !in wishlist.Values {
        assert w[key] == item;
      }
    }
    if item in wishlist.Values {
      var k :| k in wishlist && wishlist[k] == item;
      assert item.productId in Wished(wishlist, item.userId);
    } else {
      assert item.productId in Wished(w, item.userId) by {
        assert w[key] == item;
      }
      forall u
        ensures Wished(w, u) == Wished(wishlist, u) + (if u == item.userId then {item.productId} else {})
      {
        forall p | p in Wished(w, u)
          ensures p in Wished(wishlist, u) + (if u == item.userId then {item.productId} else {})
        {
          var k :| k in w && w[k].userId == u && w[k].productId == p;
          if k != key {
            assert wishlist[k] == w[k];
          }
        }
        forall p | p in Wished(wishlist, u)
          ensures p in Wished(w, u)
        {
          var k :| k in wishlist && wishlist[k].userId == u && wishlist[k].productId == p;
          assert w[k] == wishlist[k];
        }
      }
    }
  }

  /** Removing a pair takes exactly that product off exactly that user's list; removing it again finds nothing. */
  lemma RemoveWishSound(wishlist: map<nat, WishlistItem>, item: WishlistItem)
    requires WishlistUnique(wishlist)
    ensures WishlistUnique(RemoveWish(wishlist, item))
    ensures item !in RemoveWish(wishlist, item).Values
    ensures Wished(RemoveWish(wishlist, item), item.userId) == Wished(wishlist, item.userId) - {item.productId}
    ensures forall u :: u != item.userId ==> Wished(RemoveWish(wishlist, item), u) == Wished(wishlist, u)
  {
    var w := RemoveWish(wishlist, item);
    forall u
      ensures Wished(w, u) == Wished(wishlist, u) - (if u == item.userId then {item.productId} else {})
    {
      forall p | p in Wished(wishlist, u) - (if u == item.userId then {item.productId} else {})
        ensures p in Wished(w, u)
      {
        var k :| k in wishlist && wishlist[k].userId == u && wishlist[k].productId == p;
        assert w[k] == wishlist[k];
      }
    }
  }

  /** Removing a pair that was just added gives back the table as it was. */
  lemma RemoveUndoesAdd(wishlist: map<nat, WishlistItem>, key: nat, item: WishlistItem)
    requires item !in wishlist.Values && key !in wishlist
    ensures RemoveWish(AddWish(wishlist, key, item), item) == wishlist
  {
    var w := RemoveWish(AddWish(wishlist, key, item), item);
    assert forall k :: k in wishlist ==> wishlist[k] != item;
    assert w.Keys == wishlist.Keys;
  }

  /** The cakes `suggested_products` draws from: the other active cakes of the same category. */
  function Pool(cakes: map<nat, Cake>, cakeId: nat): (r: set<nat>)
    requires cakeId in cakes
    ensures forall c :: c in r <==> c in cakes && c != cakeId && cakes[c].isActive
                                     && cakes[c].categoryId == cakes[cakeId].categoryId
  {
    set c | c in cakes && c != cakeId && cakes[c].isActive && cakes[c].categoryId == cakes[cakeId].categoryId
  }

  function CreatedAt(cakes: map<nat, Cake>): map<nat, int>
  {
    map c | c in cakes :: cakes[c].createdAt
  }

  const SuggestedCount: nat := 4

  /** Each row of `VariantRows` comes from the entry at its offset, and the rows fill exactly the ids from `first` on. */
  lemma {:induction false} VariantRowsShape(first: nat, cakeId: nat, es: seq<VariantEntry>)
    requires forall k :: 0 <= k < |es| ==> es[k].size.Some? && es[k].size.value >= 0
    ensures forall n :: n in VariantRows(first, cakeId, es) <==> first <= n < first + |es|
    ensures forall n :: n in VariantRows(first, cakeId, es) ==> VariantRows(first, cakeId, es)[n] == EntryRow(cakeId, es[n - first])
  {
    if es != [] {
      var init := es[..|es| - 1];
      VariantRowsShape(first, cakeId, init);
      assert forall j :: 0 <= j < |init| ==> es[j] == init[j];
    }
  }

  lemma {:induction false} ImageRowsShape(first: nat, cakeId: nat, files: seq<string>)
    ensures forall n :: n in ImageRows(first, cakeId, files) <==> first <= n < first + |files|
    ensures forall n :: n in ImageRows(first, cakeId, files) ==> ImageRows(first, cakeId, files)[n] == ProductImage(cakeId, files[n - first])
  {
    if files != [] {
      var init := files[..|files| - 1];
      ImageRowsShape(first, cakeId, init);
      assert forall j :: 0 <= j < |init| ==> files[j] == init[j];
    }
  }

  /** Storing the image of file i extends the rows of the files before it. */
  lemma NextImageRow(prior: map<nat, ProductImage>, first: nat, cakeId: nat, files: seq<string>, i: nat)
    requires i < |files|
    ensures (prior + ImageRows(first, cakeId, files[..i]))[first + i := ProductImage(cakeId, files[i])]
            == prior + ImageRows(first, cakeId, files[..i + 1])
  {
    assert files[..i + 1][..i] == files[..i];
  }

  /** A row whose cake does not yet offer its size keeps (cake, size) unique. */
  lemma AddVariantKeepsUnique(variants: map<nat, SizeVariant>, key: nat, row: SizeVariant)
    requires VariantsUnique(variants) && key !in variants
    requires forall k :: k in variants && variants[k].cakeId == row.cakeId ==> variants[k].sizeId != row.sizeId
    ensures VariantsUnique(variants[key := row])
  {
  }

  /** The rows of one more entry are the rows before it plus the entry's own row. */
  lemma VariantRowsExtend(prior: map<nat, SizeVariant>, first: nat, cakeId: nat, es: seq<VariantEntry>, i: nat)
    requires i < |es|
    requires forall k :: 0 <= k < |es| ==> es[k].size.Some? && es[k].size.value >= 0
    ensures (prior + VariantRows(first, cakeId, es[..i]))[first + i := EntryRow(cakeId, es[i])]
            == prior + VariantRows(first, cakeId, es[..i + 1])
  {
    assert es[..i + 1][..i] == es[..i];
  }

  /** No row of `cur` already gives this cake the size of entry i. */
  lemma SizeNotYetOffered(prior: map<nat, SizeVariant>, cur: map<nat, SizeVariant>, first: nat, cakeId: nat,
                          es: seq<VariantEntry>, i: nat)
    requires i < |es|
    requires forall k :: 0 <= k < |es| ==> es[k].size.Some? && es[k].size.value >= 0
    requires forall a, b :: 0 <= a < b < |es| ==> es[a].size != es[b].size
    requires forall k :: k in prior ==> k < first && prior[k].cakeId != cakeId
    requires cur == prior + VariantRows(first, cakeId, es[..i])
    ensures first + i !in cur
    ensures forall k :: k in cur && cur[k].cakeId == cakeId ==> cur[k].sizeId != es[i].size.value
  {
    var rows := VariantRows(first, cakeId, es[..i]);
    VariantRowsShape(first, cakeId, es[..i]);
    forall k | k in cur && cur[k].cakeId == cakeId
      ensures cur[k].sizeId != es[i].size.value
    {
      assert k in rows && cur[k] == rows[k];
      var j := k - first;
      assert rows[k] == EntryRow(cakeId, es[..i][j]) && es[..i][j] == es[j] && j < i;
    }
  }

  /**
   * One more entry's row extends `cur`, the rows of the entries before it,
   * to the rows of one more entry, and keeps (cake, size) unique.
   */
  lemma NextVariantRow(prior: map<nat, SizeVariant>, cur: map<nat, SizeVariant>, first: nat, cakeId: nat,
                       es: seq<VariantEntry>, i: nat)
    requires i < |es|
    requires forall k :: 0 <= k < |es| ==> es[k].size.Some? && es[k].size.value >= 0
    requires forall a, b :: 0 <= a < b < |es| ==> es[a].size != es[b].size
    requires forall k :: k in prior ==> k < first && prior[k].cakeId != cakeId
    requires cur == prior + VariantRows(first, cakeId, es[..i]) && VariantsUnique(cur)
    ensures first + i !in cur
    ensures cur[first + i := EntryRow(cakeId, es[i])] == prior + VariantRows(first, cakeId, es[..i + 1])
    ensures VariantsUnique(cur[first + i := EntryRow(cakeId, es[i])])
  {
    SizeNotYetOffered(prior, cur, first, cakeId, es, i);
    VariantRowsExtend(prior, first, cakeId, es, i);
    AddVariantKeepsUnique(cur, first + i, EntryRow(cakeId, es[i]));
  }

  /** The keys `CakeSerializer.create` pops before `super().create`: the tags, the flavors and the variant text. */
  const PoppedOnCreate: set<string> := {"tags", "available_flavors", "size_variants_json"}

  /** Write-only inputs of CakeSerializer that name no Cake column. */
  const NotCakeColumns: set<string> := {"remove_main_image", "galleryImageFiles", "galleryImagesToRemoveIds"}

  /**
   * The keys of validated_data on a create: the sources of the fields sent,
   * plus `remove_main_image`, whose declared default False fills it in when
   * it is not sent.
   */
  function CreateValidatedKeys(sent: set<string>): (r: set<string>)
    ensures sent <= r && "remove_main_image" in r
    ensures r - sent <= {"remove_main_image"}
  {
    sent + {"remove_main_image"}
  }

  /** The keywords `super().create` passes on to `Cake.objects.create`, as the code stands. */
  function CreateKwargsAsWritten(sent: set<string>): (r: set<string>)
    ensures r !! PoppedOnCreate
    ensures "remove_main_image" in r
  {
    CreateValidatedKeys(sent) - PoppedOnCreate
  }

  /**
   * `CakeSerializer.create` as written: `Cake(**kwargs)` raises a TypeError for
   * a keyword that is not a column, which reaches the client as a 500. Since
   * `remove_main_image` is always among them, every create fails.
   */
  function CreateCakeAsWritten(sent: set<string>): (r: Reply)
    ensures r == ServerError
  {
    if CreateKwargsAsWritten(sent) !! NotCakeColumns then Created else ServerError
  }

  /** The keywords once the non-column inputs are popped as well, as the create evidently intends. */
  function CreateKwargs(sent: set<string>): (r: set<string>)
    ensures r !! PoppedOnCreate && r !! NotCakeColumns
    ensures forall k :: k in sent && k !in PoppedOnCreate && k !in NotCakeColumns ==> k in r
    ensures r <= sent
  {
    CreateValidatedKeys(sent) - PoppedOnCreate - NotCakeColumns
  }

  /**
   * A create that sends only the name and the category already fails as
   * written, while the intended keywords are exactly those two columns.
   */
  lemma CreateCakeCrashes()
    ensures CreateCakeAsWritten({"name", "category"}) == ServerError
    ensures "remove_main_image" in CreateKwargsAsWritten({"name", "category"})
    ensures CreateKwargs({"name", "category"}) == {"name", "category"}
  {
    var k := CreateKwargs({"name", "category"});
    assert "name" in k && "category" in k;
  }

  /** The cake row `CakeSerializer.create` stores: the slug is read-only, so `Cake.save` derives it from the name. */
  function NewCake(draft: Cake, slugifiedName: string, tagIds: set<nat>, flavorIds: set<nat>, now: int): (c: Cake)
    ensures c.slug == slugifiedName && c.reviewCount == 0
  {
    draft.(slug := SlugOnSave("", slugifiedName), tagIds := tagIds, flavorIds := flavorIds, createdAt := now,
           reviewCount := 0)
  }

  /**
   * The entries `create` stores: an absent field defaults to "[]" and a blank
   * one is skipped; text that is not an array of objects fails (None).
   */
  function CreateEntries(text: Field<VariantsText>): (r: Option<seq<VariantEntry>>)
    ensures r.None? <==> text.Present? && text.value.MalformedJson?
    ensures r.Some? && r.value != [] ==> text == Present(EntryList(r.value))
  {
    match text
    case Absent => Some([])
    case Present(BlankText) => Some([])
    case Present(MalformedJson) => None
    case Present(EntryList(es)) => Some(es)
  }

  /** `[int(s) for s in ids if s]` over the gallery removal ids; None when an id is not an integer. */
  function RemovalIds(ids: seq<string>): (r: Option<seq<int>>)
    ensures r.None? <==> exists k :: 0 <= k < |ids| && ids[k] != "" && PyInt(ids[k]).None?
    ensures r.Some? ==> forall k :: 0 <= k < |ids| && ids[k] != "" ==> PyInt(ids[k]).value in r.value
  {
    if ids == [] then Some([])
    else
      var rest := RemovalIds(ids[1..]);
      assert forall k :: 1 <= k < |ids| ==> ids[k] == ids[1..][k - 1];
      if ids[0] == "" then rest
      else if PyInt(ids[0]).None? || rest.None? then None
      else Some([PyInt(ids[0]).value] + rest.value)
  }

  /** `ProductImage.objects.filter(id__in=ids, cake=cakeId).delete()`. */
  function WithoutImages(images: map<nat, ProductImage>, cakeId: nat, ids: seq<int>): map<nat, ProductImage>
  {
    map k | k in images && !(k as int in ids && images[k].cakeId == cakeId) :: images[k]
  }

  /**
   * A gallery removal deletes exactly the listed images of this cake: the
   * images of every other cake, and this cake's unlisted ones, stay as they are.
   */
  lemma GalleryRemovalOnlyOwn(images: map<nat, ProductImage>, cakeId: nat, ids: seq<int>)
    ensures forall k :: k in images && images[k].cakeId != cakeId ==>
      k in WithoutImages(images, cakeId, ids) && WithoutImages(images, cakeId, ids)[k] == images[k]
    ensures forall k :: k in images && k as int !in ids ==>
      k in WithoutImages(images, cakeId, ids) && WithoutImages(images, cakeId, ids)[k] == images[k]
    ensures forall k :: k in images && k as int in ids && images[k].cakeId == cakeId ==> k !in WithoutImages(images, cakeId, ids)
    ensures forall k :: k in WithoutImages(images, cakeId, ids) ==> k in images
  {
  }

  /** Why `update` fails: an unreadable removal id, or variant text that is blank, malformed or unstorable. */
  predicate UpdateFails(removeIds: seq<string>, text: Field<VariantsText>, sizes: set<nat>)
  {
    RemovalIds(removeIds).None?
    || (text.Present? && (text.value.BlankText? || text.value.MalformedJson? || !EntriesFit(text.value.entries, sizes)))
  }

  /** The many-to-many fields `update` sets when their keys are sent. */
  function Relinked(c: Cake, tagIds: Field<set<nat>>, flavorIds: Field<set<nat>>): (r: Cake)
    ensures r.tagIds == (if tagIds.Present? then tagIds.value else c.tagIds)
    ensures r.flavorIds == (if flavorIds.Present? then flavorIds.value else c.flavorIds)
    ensures r.(tagIds := c.tagIds, flavorIds := c.flavorIds) == c
  {
    c.(tagIds := if tagIds.Present? then tagIds.value else c.tagIds,
       flavorIds := if flavorIds.Present? then flavorIds.value else c.flavorIds)
  }

  /** `queryset.update(is_active=...)` over the matched cakes. */
  function WithActive(cakes: map<nat, Cake>, matched: set<nat>, active: bool): (r: map<nat, Cake>)
    ensures r.Keys == cakes.Keys
    ensures forall c :: c in matched && c in cakes ==> r[c] == cakes[c].(isActive := active)
    ensures forall c :: c !in matched && c in cakes ==> r[c] == cakes[c]
  {
    map c | c in cakes :: if c in matched then cakes[c].(isActive := active) else cakes[c]
  }

  class Store {
    /** Tag names; the tag with id i is `tags[i - 1]`, and names are unique. */
    var tags: seq<string>
    var cakes: map<nat, Cake>
    var nextCakeId: nat
    var variants: map<nat, SizeVariant>
    var nextVariantId: nat
    var images: map<nat, ProductImage>
    var nextImageId: nat
    var wishlist: map<nat, WishlistItem>
    var nextWishId: nat
    var reviews: map<nat, Review>
    var nextReviewId: nat
    /** The ids of the Size rows, which these handlers never change. */
    const sizes: set<nat>

    /**
     * Ids stay below the next id of their table, every variant, image, wishlist
     * entry and review belongs to a stored cake (on_delete=CASCADE), and the
     * uniqueness constraints of the models hold.
     */
    ghost predicate Valid()
      reads this
    {
      Distinct(tags) && RowsValid()
    }

    /** The tables other than the tag list are consistent. */
    ghost predicate RowsValid()
      reads this`cakes, this`nextCakeId, this`variants, this`nextVariantId, this`images, this`nextImageId
      reads this`wishlist, this`nextWishId, this`reviews, this`nextReviewId
    {
      CakeIdsValid() && VariantRowsValid() && ImageRowsValid() && WishRowsValid() && ReviewRowsValid()
    }

    ghost predicate CakeIdsValid()
      reads this`cakes, this`nextCakeId
    {
      forall c :: c in cakes ==> c < nextCakeId
    }

    ghost predicate VariantRowsValid()
      reads this`variants, this`nextVariantId, this`cakes
    {
      (forall k :: k in variants ==> k < nextVariantId && variants[k].cakeId in cakes)
      && VariantsUnique(variants)
    }

    ghost predicate ImageRowsValid()
      reads this`images, this`nextImageId, this`cakes
    {
      forall k :: k in images ==> k < nextImageId && images[k].cakeId in cakes
    }

    ghost predicate WishRowsValid()
      reads this`wishlist, this`nextWishId, this`cakes
    {
      (forall k :: k in wishlist ==> k < nextWishId && wishlist[k].productId in cakes)
      && WishlistUnique(wishlist)
    }

    ghost predicate ReviewRowsValid()
      reads this`reviews, this`nextReviewId, this`cakes
    {
      (forall k :: k in reviews ==> k < nextReviewId && reviews[k].productId in cakes)
      && ReviewsValid(reviews)
    }

    /** Every cake's `review_count` is the number of its reviews. */
    ghost predicate ReviewCountsAccurate()
      reads this
    {
      forall c :: c in cakes ==> cakes[c].reviewCount == ReviewCount(reviews, c)
    }

    constructor(sizes: set<nat>)
      ensures Valid() && ReviewCountsAccurate()
      ensures this.sizes == sizes && tags == [] && cakes == map[] && variants == map[]
      ensures images == map[] && wishlist == map[] && reviews == map[]
    {
      this.sizes := sizes;
      tags := [];
      cakes := map[];
      nextCakeId := 1;
      variants := map[];
      nextVariantId := 1;
      images := map[];
      nextImageId := 1;
      wishlist := map[];
      nextWishId := 1;
      reviews := map[];
      nextReviewId := 1;
    }

    /** `Tag.objects.get_or_create(name=name)`: the id of the tag of that name, appended when there is none. */
    method GetOrCreateTag(name: string) returns (id: nat)
      requires Distinct(tags)
      modifies this`tags
      ensures Distinct(tags)
      ensures 1 <= id <= |tags| && tags[id - 1] == name
      ensures name in old(tags) ==> tags == old(tags)
      ensures name !in old(tags) ==> tags == old(tags) + [name]
    {
      var i := 0;
      while i < |tags|
        invariant 0 <= i <= |tags|
        invariant forall j :: 0 <= j < i ==> tags[j] != name
      {
        if tags[i] == name {
          return i + 1;
        }
        i := i + 1;
      }
      tags := tags + [name];
      id := |tags|;
    }

    /**
     * The loop of TagViewSet.find_or_create: one tag id per name, in order;
     * equal names get the same id, and only these names are added.
     */
    method TagIds(clean: seq<string>) returns (ids: seq<nat>)
      requires Distinct(tags)
      modifies this`tags
      ensures Distinct(tags)
      ensures |ids| == |clean|
      ensures forall k :: 0 <= k < |clean| ==> 1 <= ids[k] <= |tags| && tags[ids[k] - 1] == clean[k]
      ensures forall k, j :: 0 <= k < |clean| && 0 <= j < |clean| ==> (ids[k] == ids[j] <==> clean[k] == clean[j])
      ensures |old(tags)| <= |tags| && tags[..|old(tags)|] == old(tags)
      ensures forall j :: |old(tags)| <= j < |tags| ==> tags[j] in clean
    {
      ids := [];
      for i := 0 to |clean|
        invariant Distinct(tags)
        invariant |ids| == i
        invariant forall k :: 0 <= k < i ==> 1 <= ids[k] <= |tags| && tags[ids[k] - 1] == clean[k]
        invariant |old(tags)| <= |tags| && tags[..|old(tags)|] == old(tags)
        invariant forall j :: |old(tags)| <= j < |tags| ==> tags[j] in clean[..i]
      {
        ghost var before := tags;
        var id := GetOrCreateTag(clean[i]);
        assert clean[..i + 1] == clean[..i] + [clean[i]];
        assert tags[..|before|] == before;
        ids := ids + [id];
      }
      assert clean[..|clean|] == clean;
      forall k, j | 0 <= k < |clean| && 0 <= j < |clean| && clean[k] == clean[j]
        ensures ids[k] == ids[j]
      {
        DistinctIndices(tags, ids[k] - 1, ids[j] - 1);
      }
    }

    /**
     * TagViewSet.find_or_create: validates the names, then finds or creates one
     * tag per stripped name, in input order. The view's own skip of blank names
     * never fires, because validation has already refused them.
     */
    method FindOrCreateTags(names: seq<string>) returns (r: Validated<seq<nat>>)
      requires Valid()
      modifies this`tags
      ensures Valid()
      ensures r.Accepted? <==> ValidateTagNames(names).Accepted?
      ensures r.Rejected? ==> r.keys == ["names"] && tags == old(tags)
      ensures r.Accepted? ==> var clean := ValidateTagNames(names).value;
        && |r.value| == |clean|
        && (forall k :: 0 <= k < |clean| ==> 1 <= r.value[k] <= |tags| && tags[r.value[k] - 1] == clean[k])
        && (forall k, j :: 0 <= k < |clean| && 0 <= j < |clean| ==> (r.value[k] == r.value[j] <==> clean[k] == clean[j]))
        && (forall j :: |old(tags)| <= j < |tags| ==> tags[j] in clean)
      ensures |old(tags)| <= |tags| && tags[..|old(tags)|] == old(tags)
    {
      var v := ValidateTagNames(names);
      if v.Rejected? {
        return Rejected(v.keys);
      }
      ghost var clean := ValidateTagNames(names).value;
      assert v.value == clean;
      var ids := TagIds(v.value);
      assert RowsValid();
      r := Accepted(ids);
    }

    /**
     * ReviewListCreateAPIView.create and perform_create: a rating outside 1..5
     * is a 400 from the serializer, a missing cake a 404, a second review of
     * the same cake by the same user a 400; otherwise the review is stored and
     * the cake's `review_count` is recounted. The comment is a CharField that
     * may be left out (stored as null), null or blank, and is stripped.
     */
    method AddReview(cakeId: nat, userId: nat, rating: int, comment: Field<Option<string>>) returns (reply: Reply)
      requires Valid()
      modifies this`reviews, this`nextReviewId, this`cakes
      ensures Valid()
      ensures !(1 <= rating <= 5) ==> reply == BadRequest
      ensures 1 <= rating <= 5 && cakeId !in cakes ==> reply == NotFound
      ensures 1 <= rating <= 5 && cakeId in old(cakes)
        ==> (reply == BadRequest <==> exists k :: k in old(reviews) && old(reviews)[k].productId == cakeId && old(reviews)[k].userId == userId)
      ensures 1 <= rating <= 5 && cakeId in old(cakes)
        && !(exists k :: k in old(reviews) && old(reviews)[k].productId == cakeId && old(reviews)[k].userId == userId)
        ==> reply == Created
      ensures reply != Created ==> reviews == old(reviews) && cakes == old(cakes)
      ensures reply == Created ==>
        && cakeId in old(cakes)
        && reviews == old(reviews)[old(nextReviewId) := Review(cakeId, userId, rating as nat, StoredComment(comment))]
        && cakes == old(cakes)[cakeId := old(cakes)[cakeId].(reviewCount := ReviewCount(reviews, cakeId))]
        && cakes[cakeId].reviewCount == ReviewCount(old(reviews), cakeId) + 1
      ensures old(ReviewCountsAccurate()) ==> ReviewCountsAccurate()
    {
      if !(1 <= rating <= 5) {
        return BadRequest;
      }
      if cakeId !in cakes {
        return NotFound;
      }
      if exists k :: k in reviews && reviews[k].productId == cakeId && reviews[k].userId == userId {
        return BadRequest;
      }
      var review := Review(cakeId, userId, rating as nat, StoredComment(comment));
      ReviewCountAfterAdd(reviews, nextReviewId, review);
      CreateReview(review);
      SetReviewCount(cakeId, ReviewCount(reviews, cakeId));
      reply := Created;
    }

    /** The `review_count` column of one cake is set; no other cake changes. */
    method SetReviewCount(cakeId: nat, count: nat)
      requires Valid() && cakeId in cakes
      modifies this`cakes
      ensures Valid()
      ensures cakes == old(cakes)[cakeId := old(cakes)[cakeId].(reviewCount := count)]
    {
      cakes := cakes[cakeId := cakes[cakeId].(reviewCount := count)];
      assert cakes.Keys == old(cakes).Keys;
    }

    /** `serializer.save(user=..., product=...)`: the review is stored under the next id. */
    method CreateReview(review: Review)
      requires Valid() && review.productId in cakes && 1 <= review.rating <= 5
      requires forall k :: k in reviews ==> reviews[k].productId != review.productId || reviews[k].userId != review.userId
      modifies this`reviews, this`nextReviewId
      ensures Valid()
      ensures reviews == old(reviews)[old(nextReviewId) := review] && old(nextReviewId) !in old(reviews)
    {
      reviews := reviews[nextReviewId := review];
      nextReviewId := nextReviewId + 1;
    }

    /**
     * CakeViewSet.add_to_wishlist. The lookup only sees active cakes, and its
     * 404 is caught by the view's blanket handler, so a missing or inactive
     * cake answers 500.
     */
    method AddToWishlist(userId: nat, cakeId: nat) returns (reply: Reply)
      requires Valid()
      modifies this`wishlist, this`nextWishId
      ensures Valid()
      ensures !(cakeId in cakes && cakes[cakeId].isActive) ==> reply == ServerError && wishlist == old(wishlist)
      ensures cakeId in cakes && cakes[cakeId].isActive ==>
        && wishlist == AddWish(old(wishlist), old(nextWishId), WishlistItem(userId, cakeId))
        && (reply == Exists <==> WishlistItem(userId, cakeId) in old(wishlist).Values)
        && (reply == Created <==> WishlistItem(userId, cakeId) !in old(wishlist).Values)
    {
      if !(cakeId in cakes && cakes[cakeId].isActive) {
        return ServerError;
      }
      var item := WishlistItem(userId, cakeId);
      if item in wishlist.Values {
        return Exists;
      }
      AddWishSound(wishlist, nextWishId, item);
      wishlist := wishlist[nextWishId := item];
      nextWishId := nextWishId + 1;
      reply := Created;
    }

    /** CakeViewSet.remove_from_wishlist: 204 when the pair was there, 404 when not, 500 for a missing or inactive cake. */
    method RemoveFromWishlist(userId: nat, cakeId: nat) returns (reply: Reply)
      requires Valid()
      modifies this`wishlist
      ensures Valid()
      ensures !(cakeId in cakes && cakes[cakeId].isActive) ==> reply == ServerError && wishlist == old(wishlist)
      ensures cakeId in cakes && cakes[cakeId].isActive ==>
        && wishlist == RemoveWish(old(wishlist), WishlistItem(userId, cakeId))
        && (reply == NoContent <==> WishlistItem(userId, cakeId) in old(wishlist).Values)
        && (reply == NotFound <==> WishlistItem(userId, cakeId) !in old(wishlist).Values)
    {
      if !(cakeId in cakes && cakes[cakeId].isActive) {
        return ServerError;
      }
      var item := WishlistItem(userId, cakeId);
      if item !in wishlist.Values {
        assert RemoveWish(wishlist, item) == wishlist;
        return NotFound;
      }
      RemoveWishSound(wishlist, item);
      wishlist := RemoveWish(wishlist, item);
      reply := NoContent;
    }

    /**
     * WishlistItemSerializer.create: `product_id` must name any stored cake
     * (else a 400); the entry is fetched or created, never duplicated, and its
     * id is returned.
     */
    method CreateWishlistItem(userId: nat, productId: nat) returns (r: Option<nat>)
      requires Valid()
      modifies this`wishlist, this`nextWishId
      ensures Valid()
      ensures r.None? <==> productId !in cakes
      ensures r.None? ==> wishlist == old(wishlist)
      ensures r.Some? ==> wishlist == AddWish(old(wishlist), old(nextWishId), WishlistItem(userId, productId))
      ensures r.Some? ==> r.value in wishlist && wishlist[r.value] == WishlistItem(userId, productId)
    {
      if productId !in cakes {
        return None;
      }
      var item := WishlistItem(userId, productId);
      AddWishSound(wishlist, nextWishId, item);
      if item in wishlist.Values {
        var k :| k in wishlist && wishlist[k] == item;
        return Some(k);
      }
      wishlist := wishlist[nextWishId := item];
      r := Some(nextWishId);
      nextWishId := nextWishId + 1;
    }

    /**
     * CakeViewSet.suggested_products: a 404 (None) unless the cake is active;
     * [] for a cake without a category; otherwise at most four other active
     * cakes of the same category, newest first.
     */
    method Suggested(cakeId: nat) returns (r: Option<seq<nat>>)
      requires Valid()
      ensures r.None? <==> !(cakeId in cakes && cakes[cakeId].isActive)
      ensures r.Some? && cakes[cakeId].categoryId.None? ==> r.value == []
      ensures r.Some? && cakes[cakeId].categoryId.Some? ==>
        var pool := Pool(cakes, cakeId);
        && |r.value| == (if |pool| < SuggestedCount then |pool| else SuggestedCount)
        && Distinct(r.value) && (forall c :: c in r.value ==> c in pool)
        && (forall i, j :: 0 <= i < j < |r.value| ==> cakes[r.value[i]].createdAt >= cakes[r.value[j]].createdAt)
        && (forall c, j :: c in pool && c !in r.value && 0 <= j < |r.value| ==>
              cakes[c].createdAt <= cakes[r.value[j]].createdAt)
    {
      if !(cakeId in cakes && cakes[cakeId].isActive) {
        return None;
      }
      if cakes[cakeId].categoryId.None? {
        return Some([]);
      }
      var pool := Pool(cakes, cakeId);
      var cands: seq<nat> := [];
      for n := 0 to nextCakeId
        invariant Distinct(cands)
        invariant forall c :: c in cands ==> c in pool && c < n
        invariant forall c :: c in pool && c < n ==> c in cands
      {
        if n in cakes && n != cakeId && cakes[n].isActive && cakes[n].categoryId == cakes[cakeId].categoryId {
          cands := cands + [n];
        }
      }
      assert Elems(cands) == pool;
      DistinctCard(cands);
      var score := CreatedAt(cakes);
      var top := TopK(cands, score, SuggestedCount);
      r := Some(top);
    }

    /** Stores one variant row per entry for a cake that has none yet. */
    method AddVariants(cakeId: nat, es: seq<VariantEntry>)
      requires Valid() && cakeId in cakes && EntriesFit(es, sizes)
      requires forall k :: k in variants ==> variants[k].cakeId != cakeId
      modifies this`variants, this`nextVariantId
      ensures Valid()
      ensures variants == old(variants) + VariantRows(old(nextVariantId), cakeId, es)
      ensures nextVariantId == old(nextVariantId) + |es|
    {
      ghost var first := nextVariantId;
      ghost var prior := variants;
      assert forall k :: k in prior ==> k < first && prior[k].cakeId != cakeId;
      assert forall k :: 0 <= k < |es| ==> es[k].size.Some? && es[k].size.value >= 0;
      for i := 0 to |es|
        invariant nextVariantId == first + i
        invariant variants == prior + VariantRows(first, cakeId, es[..i])
        invariant Valid()
      {
        StoreEntry(prior, first, cakeId, es, i);
      }
      assert es[..|es|] == es;
    }

    /** Stores entry i of `es` once the entries before it are stored. */
    method StoreEntry(ghost prior: map<nat, SizeVariant>, ghost first: nat, cakeId: nat, es: seq<VariantEntry>, i: nat)
      requires Valid() && cakeId in cakes && EntriesFit(es, sizes) && i < |es|
      requires forall k :: k in prior ==> k < first && prior[k].cakeId != cakeId
      requires nextVariantId == first + i && variants == prior + VariantRows(first, cakeId, es[..i])
      modifies this`variants, this`nextVariantId
      ensures Valid()
      ensures nextVariantId == first + i + 1 && variants == prior + VariantRows(first, cakeId, es[..i + 1])
    {
      NextVariantRow(prior, variants, first, cakeId, es, i);
      CreateVariant(EntryRow(cakeId, es[i]));
    }

    /** `CakeSizeVariant.objects.create`: the row is stored under the next id. */
    method CreateVariant(row: SizeVariant)
      requires Valid() && row.cakeId in cakes && nextVariantId !in variants
      requires VariantsUnique(variants[nextVariantId := row])
      modifies this`variants, this`nextVariantId
      ensures Valid()
      ensures variants == old(variants)[old(nextVariantId) := row]
      ensures nextVariantId == old(nextVariantId) + 1
    {
      variants := variants[nextVariantId := row];
      nextVariantId := nextVariantId + 1;
    }

    /** `ProductImage.objects.create`: the row is stored under the next id. */
    method CreateImage(row: ProductImage)
      requires Valid() && row.cakeId in cakes
      modifies this`images, this`nextImageId
      ensures Valid()
      ensures images == old(images)[old(nextImageId) := row]
      ensures nextImageId == old(nextImageId) + 1
    {
      images := images[nextImageId := row];
      nextImageId := nextImageId + 1;
    }

    /** Stores one gallery image per uploaded file. */
    method AddImages(cakeId: nat, files: seq<string>)
      requires Valid() && cakeId in cakes
      modifies this`images, this`nextImageId
      ensures Valid()
      ensures images == old(images) + ImageRows(old(nextImageId), cakeId, files)
      ensures nextImageId == old(nextImageId) + |files|
    {
      ghost var first := nextImageId;
      for i := 0 to |files|
        invariant nextImageId == first + i
        invariant images == old(images) + ImageRows(first, cakeId, files[..i])
        invariant Valid()
      {
        NextImageRow(old(images), first, cakeId, files, i);
        CreateImage(ProductImage(cakeId, files[i]));
      }
      assert files[..|files|] == files;
    }

    /**
     * CakeSerializer.create with the write-only inputs that are not columns
     * popped (CreateKwargs): the cake is stored with its tags and flavors and
     * one variant per entry of `size_variants_json`. Text that is not an array
     * of objects, or an entry that cannot be stored, fails the whole request.
     */
    method CreateCake(draft: Cake, slugifiedName: string, tagIds: set<nat>, flavorIds: set<nat>,
                      variantsText: Field<VariantsText>, now: int) returns (reply: Reply, id: nat)
      requires Valid()
      modifies this`cakes, this`nextCakeId, this`variants, this`nextVariantId
      ensures Valid()
      ensures reply == Created || reply == ServerError
      ensures reply == ServerError <==>
        CreateEntries(variantsText).None? || !EntriesFit(CreateEntries(variantsText).value, sizes)
      ensures reply == ServerError ==> cakes == old(cakes) && variants == old(variants)
      ensures reply == Created ==>
        && id == old(nextCakeId) && id !in old(cakes)
        && cakes == old(cakes)[id := NewCake(draft, slugifiedName, tagIds, flavorIds, now)]
        && variants == old(variants) + VariantRows(old(nextVariantId), id, CreateEntries(variantsText).value)
    {
      var entries := CreateEntries(variantsText);
      if entries.None? || !EntriesFit(entries.value, sizes) {
        return ServerError, 0;
      }
      id := nextCakeId;
      cakes := cakes[id := NewCake(draft, slugifiedName, tagIds, flavorIds, now)];
      nextCakeId := nextCakeId + 1;
      AddVariants(id, entries.value);
      reply := Created;
    }

    /**
     * CakeSerializer.update: removes the listed gallery images of this cake,
     * adds the uploaded ones, sets tags and flavors when sent, and when
     * `size_variants_json` is sent replaces every variant of the cake by the
     * entries, dropping any client-sent variant id. A missing cake is a 404;
     * an unreadable removal id, variant text that is blank, malformed or
     * unstorable, or a replaced variant that an order line names (`ordered`
     * holds the variant ids of the order lines) fails the whole request, and
     * `transaction.atomic` undoes what was already done.
     */
    method UpdateCake(id: nat, removeIds: seq<string>, newFiles: seq<string>, tagIds: Field<set<nat>>,
                      flavorIds: Field<set<nat>>, variantsText: Field<VariantsText>, ordered: set<nat>)
      returns (reply: Reply)
      requires Valid()
      modifies this`cakes, this`variants, this`nextVariantId, this`images, this`nextImageId
      ensures Valid()
      ensures id !in old(cakes) ==> reply == NotFound
      ensures id in old(cakes) ==>
        (reply == ServerError <==>
          UpdateFails(removeIds, variantsText, sizes) || (variantsText.Present? && VariantsInUse(old(variants), {id}, ordered)))
      ensures id in old(cakes) && !UpdateFails(removeIds, variantsText, sizes)
        && !(variantsText.Present? && VariantsInUse(old(variants), {id}, ordered))
        ==> reply == Ok
      ensures reply != Ok ==> cakes == old(cakes) && variants == old(variants) && images == old(images)
      ensures reply == Ok ==>
        && id in old(cakes)
        && cakes == old(cakes)[id := Relinked(old(cakes)[id], tagIds, flavorIds)]
        && images == WithoutImages(old(images), id, RemovalIds(removeIds).value)
                     + ImageRows(old(nextImageId), id, newFiles)
        && (variantsText.Absent? ==> variants == old(variants))
        && (variantsText.Present? ==>
              variants == VariantsOutside(old(variants), {id})
                          + VariantRows(old(nextVariantId), id, variantsText.value.entries))
    {
      if id !in cakes {
        return NotFound;
      }
      if UpdateFails(removeIds, variantsText, sizes) {
        return ServerError;
      }
      var savedCakes, savedImages := cakes, images;
      cakes := cakes[id := Relinked(cakes[id], tagIds, flavorIds)];
      assert cakes.Keys == old(cakes).Keys;
      ReplaceGallery(id, RemovalIds(removeIds).value, newFiles);
      if variantsText.Present? {
        var ok := ReplaceVariants(id, variantsText.value.entries, ordered);
        if !ok {
          // the atomic block rolls back the gallery and relation changes
          RollBack(savedCakes, savedImages);
          return ServerError;
        }
      }
      reply := Ok;
    }

    /** `transaction.atomic` leaving by an exception: the cakes and images written in the block return to what they were. */
    method RollBack(saved: map<nat, Cake>, savedImages: map<nat, ProductImage>)
      requires Valid() && saved.Keys == cakes.Keys
      requires forall k :: k in savedImages ==> k < nextImageId && savedImages[k].cakeId in saved
      modifies this`cakes, this`images
      ensures Valid()
      ensures cakes == saved && images == savedImages
    {
      cakes, images := saved, savedImages;
    }

    /** The gallery part of `update`: the listed images of the cake go, one image per new file comes. */
    method ReplaceGallery(id: nat, removal: seq<int>, newFiles: seq<string>)
      requires Valid() && id in cakes
      modifies this`images, this`nextImageId
      ensures Valid()
      ensures images == WithoutImages(old(images), id, removal) + ImageRows(old(nextImageId), id, newFiles)
      ensures nextImageId == old(nextImageId) + |newFiles|
    {
      images := WithoutImages(images, id, removal);
      AddImages(id, newFiles);
    }

    /**
     * The variant part of `update`: `instance.size_variants.all().delete()`
     * refuses when an order line names one of the cake's variants; otherwise
     * the cake's variants are replaced by one row per entry.
     */
    method ReplaceVariants(id: nat, es: seq<VariantEntry>, ordered: set<nat>) returns (ok: bool)
      requires Valid() && id in cakes && EntriesFit(es, sizes)
      modifies this`variants, this`nextVariantId
      ensures Valid()
      ensures ok <==> !VariantsInUse(old(variants), {id}, ordered)
      ensures ok ==> variants == VariantsOutside(old(variants), {id}) + VariantRows(old(nextVariantId), id, es)
      ensures !ok ==> variants == old(variants) && nextVariantId == old(nextVariantId)
    {
      if VariantsInUse(variants, {id}, ordered) {
        return false;
      }
      variants := VariantsOutside(variants, {id});
      AddVariants(id, es);
      ok := true;
    }

    /**
     * AdminCakeViewSet.bulk_delete: the listed cakes are deleted with their
     * variants, images, wishlist entries and reviews; a 404 when none matched.
     * When an order line names a variant of a matched cake the delete raises
     * ProtectedError, a 500, and nothing is deleted.
     */
    method BulkDelete(ids: Field<Json>, ordered: set<nat>) returns (reply: Reply)
      requires Valid()
      modifies this`cakes, this`variants, this`images, this`wishlist, this`reviews
      ensures Valid()
      ensures BulkIds(ids).IdsBadRequest? ==> reply == BadRequest
      ensures BulkIds(ids).IdsTypeError? ==> reply == ServerError
      ensures reply == BadRequest || reply == ServerError ==>
        cakes == old(cakes) && variants == old(variants) && images == old(images)
        && wishlist == old(wishlist) && reviews == old(reviews)
      ensures BulkIds(ids).IdsOk? ==>
        var doomed := Matching(old(cakes), BulkIds(ids).ids);
        && (reply == ServerError <==> VariantsInUse(old(variants), doomed, ordered))
        && (reply == NotFound <==> doomed == {})
        && (reply == Ok <==> doomed != {} && !VariantsInUse(old(variants), doomed, ordered))
        && (reply != ServerError ==>
              && cakes == old(cakes) - doomed
              && variants == VariantsOutside(old(variants), doomed)
              && images == ImagesOutside(old(images), doomed)
              && wishlist == WishesOutside(old(wishlist), doomed)
              && reviews == ReviewsOutside(old(reviews), doomed))
    {
      var parsed := BulkIds(ids);
      if parsed.IdsBadRequest? {
        return BadRequest;
      }
      if parsed.IdsTypeError? {
        return ServerError;
      }
      var doomed := Matching(cakes, parsed.ids);
      var ok := DeleteCakes(doomed, ordered);
      reply := if !ok then ServerError else if doomed == {} then NotFound else Ok;
    }

    /**
     * Deletes the cakes in `doomed` and, by on_delete=CASCADE, every row that
     * belongs to one of them, unless a protected variant stops the delete.
     */
    method DeleteCakes(doomed: set<nat>, ordered: set<nat>) returns (ok: bool)
      requires Valid()
      modifies this`cakes, this`variants, this`images, this`wishlist, this`reviews
      ensures Valid()
      ensures ok <==> !VariantsInUse(old(variants), doomed, ordered)
      ensures !ok ==>
        cakes == old(cakes) && variants == old(variants) && images == old(images)
        && wishlist == old(wishlist) && reviews == old(reviews)
      ensures ok ==>
        && cakes == old(cakes) - doomed
        && variants == VariantsOutside(old(variants), doomed)
        && images == ImagesOutside(old(images), doomed)
        && wishlist == WishesOutside(old(wishlist), doomed)
        && reviews == ReviewsOutside(old(reviews), doomed)
    {
      ok := DropVariants(doomed, ordered);
      if ok {
        DropOwned(doomed);
      }
    }

    /** The rest of the cascade once the variants of the cakes in `doomed` are gone, and the cakes themselves. */
    method DropOwned(doomed: set<nat>)
      requires Valid()
      requires forall k :: k in variants ==> variants[k].cakeId in cakes - doomed
      modifies this`cakes, this`images, this`wishlist, this`reviews
      ensures Valid()
      ensures cakes == old(cakes) - doomed
      ensures images == ImagesOutside(old(images), doomed)
      ensures wishlist == WishesOutside(old(wishlist), doomed)
      ensures reviews == ReviewsOutside(old(reviews), doomed)
    {
      DropImages(doomed);
      DropWishes(doomed);
      DropReviews(doomed);
      cakes := cakes - doomed;
    }

    /** The cascade to size variants, which refuses when an order line names one of them. */
    method DropVariants(doomed: set<nat>, ordered: set<nat>) returns (ok: bool)
      requires Valid()
      modifies this`variants
      ensures Valid()
      ensures ok <==> !VariantsInUse(old(variants), doomed, ordered)
      ensures ok ==> variants == VariantsOutside(old(variants), doomed)
      ensures ok ==> forall k :: k in variants ==> variants[k].cakeId in cakes - doomed
      ensures !ok ==> variants == old(variants)
    {
      if VariantsInUse(variants, doomed, ordered) {
        return false;
      }
      CascadeKeepsUnique(variants, map[], map[], doomed);
      variants := VariantsOutside(variants, doomed);
      ok := true;
    }

    method DropImages(doomed: set<nat>)
      requires Valid()
      modifies this`images
      ensures Valid()
      ensures images == ImagesOutside(old(images), doomed)
      ensures forall k :: k in images ==> images[k].cakeId in cakes - doomed
    {
      images := ImagesOutside(images, doomed);
    }

    method DropWishes(doomed: set<nat>)
      requires Valid()
      modifies this`wishlist
      ensures Valid()
      ensures wishlist == WishesOutside(old(wishlist), doomed)
      ensures forall k :: k in wishlist ==> wishlist[k].productId in cakes - doomed
    {
      CascadeKeepsUnique(map[], wishlist, map[], doomed);
      wishlist := WishesOutside(wishlist, doomed);
    }

    method DropReviews(doomed: set<nat>)
      requires Valid()
      modifies this`reviews
      ensures Valid()
      ensures reviews == ReviewsOutside(old(reviews), doomed)
      ensures forall k :: k in reviews ==> reviews[k].productId in cakes - doomed
    {
      CascadeKeepsUnique(map[], map[], reviews, doomed);
      reviews := ReviewsOutside(reviews, doomed);
    }

    /**
     * AdminCakeViewSet.bulk_update_status: the id list is checked first, then
     * `is_active` must be a JSON boolean, then the ids are converted; the
     * matched cakes get the flag, and a 404 answers when none matched.
     */
    method BulkSetActive(ids: Field<Json>, isActive: Field<Json>) returns (reply: Reply)
      requires Valid()
      modifies this`cakes
      ensures Valid()
      ensures IdsPayload(ids).None? ==> reply == BadRequest
      ensures IdsPayload(ids).Some? && !(isActive.Present? && isActive.value.JBool?) ==> reply == BadRequest
      ensures reply != Ok ==> cakes == old(cakes)
      ensures IdsPayload(ids).Some? && isActive.Present? && isActive.value.JBool? ==>
        && (IntsOf(IdsPayload(ids).value).IdsBadRequest? ==> reply == BadRequest)
        && (IntsOf(IdsPayload(ids).value).IdsTypeError? ==> reply == ServerError)
        && (IntsOf(IdsPayload(ids).value).IdsOk? ==>
              var matched := Matching(old(cakes), IntsOf(IdsPayload(ids).value).ids);
              && (reply == NotFound <==> matched == {})
              && cakes == WithActive(old(cakes), matched, isActive.value.b))
    {
      var payload := IdsPayload(ids);
      if payload.None? {
        return BadRequest;
      }
      if !(isActive.Present? && isActive.value.JBool?) {
        return BadRequest;
      }
      var parsed := IntsOf(payload.value);
      if parsed.IdsBadRequest? {
        return BadRequest;
      }
      if parsed.IdsTypeError? {
        return ServerError;
      }
      var matched := Matching(cakes, parsed.ids);
      cakes := WithActive(cakes, matched, isActive.value.b);
      reply := if matched == {} then NotFound else Ok;
    }
  }
}
