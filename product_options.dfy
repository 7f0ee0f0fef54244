/**
 * The options section of the admin product form: the flavour and add-on
 * check boxes, the "add size" button and the size drop-down of each
 * variant row.
 */
module ProductOptions {
  import opened Wrappers
  import opened Seqs
  import ProductForm
  import JsSets

  /**
   * handleFlavorChange and handleAddonChange: the watched ids (`|| []` when
   * unset) are toggled through a Set.
   */
  function Toggled(selected: Option<seq<int>>, id: int): (r: seq<int>)
    ensures Distinct(r)
    ensures id in r <==> !(selected.Some? && id in selected.value)
    ensures forall x :: x != id ==> (x in r <==> selected.Some? && x in selected.value)
    ensures selected.None? ==> r == [id]
  {
    JsSets.Toggle(selected.GetOr([]), id)
  }

  /** addNewSizeVariant's row: no size chosen, blank numbers and SKU, active for the product. */
  const NewVariant: ProductForm.VariantInput :=
    ProductForm.VariantInput(None, ProductForm.Blank, ProductForm.Blank, Some(""), ProductForm.Blank, true)

  function AddNewSizeVariant(variants: seq<ProductForm.VariantInput>): (r: seq<ProductForm.VariantInput>)
    ensures |r| == |variants| + 1 && r[..|variants|] == variants
    ensures r[|variants|].size.None? && r[|variants|].activeForProduct
  {
    variants + [NewVariant]
  }

  /** A freshly added row blocks saving until a size is chosen. */
  lemma NewVariantBlocksSave(f: ProductForm.ProductInput)
    requires f.variants != [] && f.variants[|f.variants| - 1] == NewVariant
    ensures !ProductForm.Accepted(f)
  {
    assert !ProductForm.VariantOk(f.variants[|f.variants| - 1]);
  }

  /** A size row of the catalogue, as the drop-down receives it. */
  datatype SizeOption = SizeOption(id: int, active: bool)

  /** `allSizes.filter(...)`: the active sizes that are the row's own value or not taken by the rows inspected. */
  function Offered(all: seq<SizeOption>, own: Option<int>, taken: set<int>): (r: seq<SizeOption>)
    ensures forall s :: s in r <==> s in all && s.active && (own == Some(s.id) || s.id !in taken)
    ensures |r| <= |all|
  {
    if all == [] then []
    else
      var s := all[0];
      (if s.active && (own == Some(s.id) || s.id !in taken) then [s] else []) + Offered(all[1..], own, taken)
  }

  /**
   * The sizes getAvailableSizesForVariantDropdown treats as taken, as
   * written: it drops the row's own entry with `filter` and then reads the
   * rows by the positions of the shortened list, so it inspects rows
   * 0 .. n-2 whichever row is asking.
   */
  function TakenAsWritten(sizes: seq<Option<int>>, row: nat): (r: set<int>)
    requires row < |sizes|
    ensures forall x :: x in r <==> exists j :: 0 <= j < |sizes| - 1 && sizes[j] == Some(x)
    ensures row == |sizes| - 1 ==> r == TakenByOthers(sizes, row)
  {
    set j | 0 <= j < |sizes| - 1 && sizes[j].Some? :: sizes[j].value
  }

  /** The sizes chosen in every other row, which the drop-down evidently means to exclude. */
  function TakenByOthers(sizes: seq<Option<int>>, row: nat): (r: set<int>)
    requires row < |sizes|
    ensures forall x :: x in r <==> exists j :: 0 <= j < |sizes| && j != row && sizes[j] == Some(x)
  {
    set j | 0 <= j < |sizes| && j != row && sizes[j].Some? :: sizes[j].value
  }

  /** The drop-down as written: the row's own size, or one no row in 0 .. n-2 holds. */
  function AvailableSizesAsWritten(all: seq<SizeOption>, sizes: seq<Option<int>>, row: nat): (r: seq<SizeOption>)
    requires row < |sizes|
    ensures forall s :: s in r <==>
      s in all && s.active && (sizes[row] == Some(s.id) || forall j :: 0 <= j < |sizes| - 1 ==> sizes[j] != Some(s.id))
    ensures row == |sizes| - 1 ==> r == AvailableSizes(all, sizes, row)
  {
    Offered(all, sizes[row], TakenAsWritten(sizes, row))
  }

  /** The drop-down with every other row inspected. */
  function AvailableSizes(all: seq<SizeOption>, sizes: seq<Option<int>>, row: nat): (r: seq<SizeOption>)
    requires row < |sizes|
    ensures forall s :: s in r ==> s.active && s in all
    ensures forall s, j :: s in r && 0 <= j < |sizes| && j != row && sizes[j] == Some(s.id) ==> sizes[row] == Some(s.id)
  {
    var r := Offered(all, sizes[row], TakenByOthers(sizes, row));
    assert forall s, j :: s in r && 0 <= j < |sizes| && j != row && sizes[j] == Some(s.id) ==> s.id in TakenByOthers(sizes, row);
    r
  }

  /**
   * As written, the first of two rows is offered the size the second row
   * already holds: with sizes 1 and 2 chosen, row 0 still lists size 2.
   */
  lemma DropdownOffersTakenSize()
    ensures SizeOption(2, true) in AvailableSizesAsWritten([SizeOption(1, true), SizeOption(2, true)], [Some(1), Some(2)], 0)
    ensures SizeOption(2, true) !in AvailableSizes([SizeOption(1, true), SizeOption(2, true)], [Some(1), Some(2)], 0)
  {
    var sizes := [Some(1), Some(2)];
    assert 2 !in TakenAsWritten(sizes, 0);
    assert 2 in TakenByOthers(sizes, 0) by { assert sizes[1] == Some(2); }
  }

  /** Picking any offered size in a row keeps the form's sizes unique, so the size refinement stays satisfied. */
  lemma PickKeepsSizesUnique(all: seq<SizeOption>, sizes: seq<Option<int>>, row: nat, s: SizeOption)
    requires row < |sizes| && ProductForm.SizesUnique(sizes)
    requires s in AvailableSizes(all, sizes, row)
    ensures ProductForm.SizesUnique(sizes[row := Some(s.id)])
  {
    var after := sizes[row := Some(s.id)];
    ProductForm.SizesUniqueIffDistinct(sizes);
    ProductForm.SizesUniqueIffDistinct(after);
    forall i, j | 0 <= i < j < |after|
      ensures after[i] != after[j]
    {
      if i == row {
        assert sizes[j] != Some(s.id);
      } else if j == row {
        assert sizes[i] != Some(s.id);
      }
    }
  }
}
