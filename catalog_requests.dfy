/**
 * The request-side logic of the catalog (products/views.py and
 * products/serializers.py) that reads input rather than changing tables:
 * primary-key fields that take text, the comma-separated tag id field, the id
 * lists of the admin bulk actions, the tag-name list, the top-sellers limit and
 * the top-sellers aggregation.
 */
module CatalogRequests {
  import opened Wrappers
  import opened Text
  import opened Seqs
  import opened OrderModel

  /** A value as the JSON and form parsers hand it to a view; JSON numbers are integers here. */
  datatype Json = JNull | JBool(b: bool) | JInt(i: int) | JStr(s: string) | JList(elems: seq<Json>) | JObject(size: nat)

  /** Python truthiness of a parsed value. */
  predicate Truthy(j: Json)
  {
    match j
    case JNull => false
    case JBool(b) => b
    case JInt(i) => i != 0
    case JStr(s) => s != ""
    case JList(e) => e != []
    case JObject(n) => n > 0
  }

  /** Python's int(x): a value, the ValueError of unreadable text, or the TypeError of null, lists and objects. */
  datatype IntOutcome = IntOk(value: int) | IntValueError | IntTypeError

  function PyIntOf(j: Json): IntOutcome
  {
    match j
    case JBool(b) => IntOk(if b then 1 else 0)
    case JInt(i) => IntOk(i)
    case JStr(s) => if PyInt(s).Some? then IntOk(PyInt(s).value) else IntValueError
    case _ => IntTypeError
  }

  /** The outcomes of a primary-key field: the row, the `does_not_exist` error or the `incorrect_type` error. */
  datatype Related = RelatedTo(id: nat) | DoesNotExist | IncorrectType

  /** RelaxedPrimaryKeyRelatedField: int(data) first, then the primary-key lookup. */
  function RelaxedPk(data: Json, existing: set<nat>): (r: Related)
    ensures r.IncorrectType? <==> !PyIntOf(data).IntOk?
    ensures r.RelatedTo? ==> PyIntOf(data) == IntOk(r.id) && r.id in existing
    ensures r.DoesNotExist? ==> PyIntOf(data).IntOk? && !(PyIntOf(data).value >= 0 && PyIntOf(data).value in existing)
  {
    match PyIntOf(data)
    case IntOk(v) => if v >= 0 && v in existing then RelatedTo(v) else DoesNotExist
    case _ => IncorrectType
  }

  /** An existing id is accepted whether it is sent as a number or as its decimal text. */
  lemma RelaxedPkAcceptsText(n: nat, existing: set<nat>)
    requires n in existing
    ensures RelaxedPk(JInt(n), existing) == RelatedTo(n)
    ensures RelaxedPk(JStr(NatToString(n)), existing) == RelatedTo(n)
  {
    var s := NatToString(n);
    PyIntNatToString(n);
    assert PyIntOf(JStr(s)) == IntOk(n);
  }

  /** `int(item.strip())` for one comma-separated token; None stands for its ValueError. */
  function IntToken(t: string): Option<int>
  {
    PyInt(Trim(Python, t))
  }

  /** `[int(item.strip()) for item in tokens]`; None stands for the first ValueError. */
  function ParseInts(tokens: seq<string>): Option<seq<int>>
  {
    MapAll(tokens, IntToken)
  }

  /** The rows `filter(pk__in=ids)` finds: each listed id that exists, once. */
  function Found(ids: seq<int>, existing: set<nat>): set<int>
  {
    set i | i in ids && i >= 0 && i in existing
  }

  /** The count check of CommaSeparatedPKField: every parsed id must name its own row. */
  function AllFound(parsed: Option<seq<int>>, existing: set<nat>): Option<set<int>>
  {
    if parsed.None? || |Found(parsed.value, existing)| != |parsed.value| then None
    else Some(Found(parsed.value, existing))
  }

  /** The count check passes exactly when no id repeats and every id exists. */
  lemma AllFoundExactly(ids: seq<int>, existing: set<nat>)
    ensures AllFound(Some(ids), existing).Some? <==> Distinct(ids) && forall i :: i in ids ==> i >= 0 && i in existing
    ensures AllFound(Some(ids), existing).Some? ==> AllFound(Some(ids), existing).value == Elems(ids)
  {
    var f := Found(ids, existing);
    DistinctCard(ids);
    SubsetCard(f, Elems(ids));
    if Distinct(ids) && forall i :: i in ids ==> i >= 0 && i in existing {
      assert f == Elems(ids);
    }
    if |f| == |ids| {
      assert f == Elems(ids);
      forall i | i in ids
        ensures i >= 0 && i in existing
      {
        assert i in f;
      }
    }
  }

  /**
   * CommaSeparatedPKField.to_internal_value: the ids of the rows named by a
   * comma-separated string, or None for its ValidationError.
   */
  function CommaSeparatedPks(data: string, existing: set<nat>): (r: Option<set<int>>)
  {
    if data == "" then Some({}) else AllFound(ParseInts(Split(data, ',')), existing)
  }

  /**
   * A non-empty string is accepted exactly when every token is an integer, no id
   * repeats and every id exists; the result is then the set of those ids.
   */
  lemma CommaSeparatedPksExactly(data: string, existing: set<nat>)
    requires data != ""
    ensures var parsed := ParseInts(Split(data, ','));
      CommaSeparatedPks(data, existing).Some? <==>
        parsed.Some? && Distinct(parsed.value) && forall i :: i in parsed.value ==> i >= 0 && i in existing
    ensures var parsed := ParseInts(Split(data, ','));
      CommaSeparatedPks(data, existing).Some? ==> CommaSeparatedPks(data, existing).value == Elems(parsed.value)
  {
    var parsed := ParseInts(Split(data, ','));
    if parsed.Some? {
      AllFoundExactly(parsed.value, existing);
    }
  }

  /** A repeated id rejects the whole field, even when the row exists. */
  lemma CommaSeparatedPksRejectsRepeats(data: string, existing: set<nat>, i: nat, j: nat)
    requires data != ""
    requires var parsed := ParseInts(Split(data, ','));
      parsed.Some? && i < j < |parsed.value| && parsed.value[i] == parsed.value[j]
    ensures CommaSeparatedPks(data, existing).None?
  {
    CommaSeparatedPksExactly(data, existing);
  }

  function Decimals(ids: seq<nat>): (r: seq<string>)
    ensures |r| == |ids|
    ensures forall k :: 0 <= k < |ids| ==> r[k] == NatToString(ids[k])
  {
    if ids == [] then [] else [NatToString(ids[0])] + Decimals(ids[1..])
  }

  function AsInts(ids: seq<nat>): (r: seq<int>)
    ensures |r| == |ids| && forall k :: 0 <= k < |ids| ==> r[k] == ids[k]
  {
    seq(|ids|, k requires 0 <= k < |ids| => ids[k] as int)
  }

  lemma IntTokenDecimal(n: nat)
    ensures IntToken(NatToString(n)) == Some(n)
  {
    var s := NatToString(n);
    assert IsAsciiDigit(s[0]) && IsAsciiDigit(s[|s| - 1]);
    TrimFixed(Python, s);
    PyIntNatToString(n);
  }

  /** Every decimal token reads back as its number. */
  lemma ParseDecimals(ids: seq<nat>)
    ensures ParseInts(Decimals(ids)) == Some(AsInts(ids))
  {
    var parts := Decimals(ids);
    forall k | 0 <= k < |parts|
      ensures IntToken(parts[k]) == Some(ids[k] as int)
    {
      IntTokenDecimal(ids[k]);
    }
    var r := ParseInts(parts);
    assert r.Some?;
    assert r.value == AsInts(ids);
  }

  /** Joining decimal tokens with commas and splitting again gives the tokens back. */
  lemma SplitDecimals(ids: seq<nat>)
    requires ids != []
    ensures Split(JoinAll(Decimals(ids), ','), ',') == Decimals(ids)
    ensures JoinAll(Decimals(ids), ',') != ""
  {
    var parts := Decimals(ids);
    forall k | 0 <= k < |parts|
      ensures ',' !in parts[k]
    {
      assert forall c :: c in parts[k] ==> IsAsciiDigit(c);
    }
    SplitJoin(parts, ',');
    if |parts| > 1 {
      assert |Join(parts, ',')| >= |parts[0]|;
    }
  }

  /** `ids.join(',')` on a list of ids, as the front end writes id lists into a query. */
  function CommaList(ids: seq<nat>): string
  {
    JoinAll(Decimals(ids), ',')
  }

  /** Distinct existing ids that parse from the tokens are accepted as a whole. */
  lemma CommaSeparatedPksAccepts(data: string, existing: set<nat>, parts: seq<string>, ints: seq<int>)
    requires data != "" && Split(data, ',') == parts && ParseInts(parts) == Some(ints)
    requires Distinct(ints) && forall i :: i in ints ==> i >= 0 && i in existing
    ensures CommaSeparatedPks(data, existing) == Some(Elems(ints))
  {
    AllFoundExactly(ints, existing);
  }

  /** Writing distinct existing ids as "1,2,3" and reading them back names exactly those rows. */
  lemma CommaSeparatedPksRoundTrip(ids: seq<nat>, existing: set<nat>)
    requires ids != [] && Distinct(ids)
    requires forall i :: i in ids ==> i in existing
    ensures CommaSeparatedPks(JoinAll(Decimals(ids), ','), existing) == Some(set i | i in ids :: i as int)
  {
    var data := JoinAll(Decimals(ids), ',');
    SplitDecimals(ids);
    ParseDecimals(ids);
    AsIntsKeeps(ids, existing);
    CommaSeparatedPksAccepts(data, existing, Decimals(ids), AsInts(ids));
  }

  lemma AsIntsKeeps(ids: seq<nat>, existing: set<nat>)
    requires Distinct(ids) && forall i :: i in ids ==> i in existing
    ensures Distinct(AsInts(ids)) && forall i :: i in AsInts(ids) ==> i >= 0 && i in existing
    ensures Elems(AsInts(ids)) == set i | i in ids :: i as int
  {
    var ints := AsInts(ids);
    var named := set i | i in ids :: i as int;
    forall i | i in ints
      ensures i >= 0 && i in existing && i in named
    {
      var k :| 0 <= k < |ints| && ints[k] == i;
      assert ids[k] in ids;
    }
    forall i | i in ids
      ensures (i as int) in ints
    {
      var k :| 0 <= k < |ids| && ids[k] == i;
      assert ints[k] == i;
    }
    assert Elems(ints) == named;
    forall a, b | 0 <= a < b < |ints|
      ensures ints[a] != ints[b]
    {
      assert ids[a] != ids[b];
    }
  }

  /** The `ids` payload of the bulk actions: the integers, a 400, or a TypeError the view does not catch. */
  datatype IdList = IdsOk(ids: seq<int>) | IdsBadRequest | IdsTypeError

  /** Element k is the first one int() refuses. */
  predicate FirstRefused(elems: seq<Json>, k: nat)
    requires k < |elems|
  {
    !PyIntOf(elems[k]).IntOk? && forall j :: 0 <= j < k ==> PyIntOf(elems[j]).IntOk?
  }

  /** `[int(pid) for pid in elems]`: the first element int() refuses decides the error. */
  function IntsOf(elems: seq<Json>): (r: IdList)
    ensures r.IdsOk? <==> forall k :: 0 <= k < |elems| ==> PyIntOf(elems[k]).IntOk?
    ensures r.IdsOk? ==> |r.ids| == |elems| && forall k :: 0 <= k < |elems| ==> PyIntOf(elems[k]) == IntOk(r.ids[k])
    ensures r.IdsBadRequest? ==> exists k :: 0 <= k < |elems| && FirstRefused(elems, k) && PyIntOf(elems[k]).IntValueError?
    ensures r.IdsTypeError? ==> exists k :: 0 <= k < |elems| && FirstRefused(elems, k) && PyIntOf(elems[k]).IntTypeError?
  {
    if elems == [] then IdsOk([])
    else
      assert forall k :: 1 <= k < |elems| ==> elems[k] == elems[1..][k - 1];
      match PyIntOf(elems[0])
      case IntValueError => IdsBadRequest
      case IntTypeError => IdsTypeError
      case IntOk(v) =>
        var t := IntsOf(elems[1..]);
        if t.IdsOk? then IdsOk([v] + t.ids)
        else
          assert t.IdsBadRequest? ==> exists k :: 1 <= k < |elems| && FirstRefused(elems, k) && PyIntOf(elems[k]).IntValueError?;
          assert t.IdsTypeError? ==> exists k :: 1 <= k < |elems| && FirstRefused(elems, k) && PyIntOf(elems[k]).IntTypeError?;
          t
  }

  /** `request.data.get('ids', [])` with the emptiness and list checks: the elements, or None for the 400. */
  function IdsPayload(field: Field<Json>): (r: Option<seq<Json>>)
    ensures r.Some? <==> field.Present? && field.value.JList? && field.value.elems != []
    ensures r.Some? ==> r.value == field.value.elems
  {
    var v := if field.Present? then field.value else JList([]);
    if !Truthy(v) || !v.JList? then None else Some(v.elems)
  }

  /** The id payload followed by the int() conversion. */
  function BulkIds(field: Field<Json>): (r: IdList)
    ensures r.IdsOk? ==> field.Present? && field.value.JList? && |r.ids| == |field.value.elems| > 0
    ensures (field.Absent? || !field.value.JList? || field.value.elems == []) ==> r.IdsBadRequest?
  {
    var p := IdsPayload(field);
    if p.None? then IdsBadRequest else IntsOf(p.value)
  }

  /** An id list of numbers and numeric strings is read as those numbers. */
  lemma BulkIdsReadsNumbers(ns: seq<nat>, asText: set<nat>)
    requires ns != []
    ensures var elems := seq(|ns|, k requires 0 <= k < |ns| => if k in asText then JStr(NatToString(ns[k])) else JInt(ns[k]));
      BulkIds(Present(JList(elems))) == IdsOk(seq(|ns|, k requires 0 <= k < |ns| => ns[k] as int))
  {
    var elems := seq(|ns|, k requires 0 <= k < |ns| => if k in asText then JStr(NatToString(ns[k])) else JInt(ns[k]));
    forall k | 0 <= k < |ns|
      ensures PyIntOf(elems[k]) == IntOk(ns[k])
    {
      PyIntNatToString(ns[k]);
    }
    assert IdsPayload(Present(JList(elems))) == Some(elems);
    var r := IntsOf(elems);
    assert r.IdsOk?;
    assert forall k :: 0 <= k < |ns| ==> r.ids[k] == ns[k] as int;
  }

  const TagNameMaxLength: nat := 100

  /** The CharField child of TagFindOrCreateSerializer: strip, then reject blank and over-long names. */
  function CleanTagName(name: string): (r: Option<string>)
  {
    var t := Trim(Python, name);
    if t == "" || |t| > TagNameMaxLength then None else Some(t)
  }

  function CleanTagNames(names: seq<string>): Option<seq<string>>
  {
    MapAll(names, CleanTagName)
  }

  /** TagFindOrCreateSerializer: the stripped names, or a 400 keyed "names". */
  function ValidateTagNames(names: seq<string>): (r: Validated<seq<string>>)
    ensures r.Accepted? <==> forall k :: 0 <= k < |names| ==>
      Trim(Python, names[k]) != "" && |Trim(Python, names[k])| <= TagNameMaxLength
    ensures r.Accepted? ==> |r.value| == |names| && forall k :: 0 <= k < |names| ==> r.value[k] == Trim(Python, names[k])
    ensures r.Rejected? ==> r.keys == ["names"]
  {
    var c := CleanTagNames(names);
    if c.None? then Rejected(["names"]) else Accepted(c.value)
  }

  /** Accepted names are already stripped and non-blank, so the view's own strip-and-skip never drops one. */
  lemma ValidatedTagNamesAreClean(names: seq<string>)
    requires ValidateTagNames(names).Accepted?
    ensures forall k :: 0 <= k < |names| ==> var v := ValidateTagNames(names).value[k];
      Trim(Python, v) == v && v != ""
  {
    forall k | 0 <= k < |names|
      ensures Trim(Python, ValidateTagNames(names).value[k]) == ValidateTagNames(names).value[k]
    {
      TrimEdges(Python, names[k]);
      TrimFixed(Python, Trim(Python, names[k]));
    }
  }

  const DefaultTopLimit: nat := 5

  /** The `limit` query parameter: a positive integer, else 5 (absent, unreadable or not positive). */
  function TopSellingLimit(param: Option<string>): (limit: nat)
    ensures limit >= 1
    ensures param.Some? && PyInt(param.value).Some? && PyInt(param.value).value > 0 ==> limit == PyInt(param.value).value
    ensures param.None? || PyInt(param.value).None? || PyInt(param.value).value <= 0 ==> limit == DefaultTopLimit
  {
    if param.None? then DefaultTopLimit
    else match PyInt(param.value)
      case None => DefaultTopLimit
      case Some(v) => if v <= 0 then DefaultTopLimit else v
  }

  /** An order line joined with its order's status, as the top-sellers query reads it. */
  datatype SaleRow = SaleRow(kind: ProductKind, objectId: nat, quantity: nat, status: Status)

  /** A cake line of an order in PROCESSING, SHIPPED or DELIVERED. */
  predicate CountsAsSold(r: SaleRow)
  {
    r.kind == CakeKind && (r.status == Processing || r.status == Shipped || r.status == Delivered)
  }

  /** `Sum('quantity')` of the counted lines of cake `id`. */
  function SoldIn(rows: seq<SaleRow>, id: nat): nat
  {
    if rows == [] then 0
    else
      var last := rows[|rows| - 1];
      SoldIn(rows[..|rows| - 1], id) + (if CountsAsSold(last) && last.objectId == id then last.quantity else 0)
  }

  /** The cakes the `values('object_id')` grouping yields: those with a counted line. */
  function SoldIds(rows: seq<SaleRow>): set<nat>
  {
    if rows == [] then {}
    else
      var last := rows[|rows| - 1];
      SoldIds(rows[..|rows| - 1]) + (if CountsAsSold(last) then {last.objectId} else {})
  }

  /** A cake that is not in the grouping has sold nothing. */
  lemma {:induction false} SoldInOutside(rows: seq<SaleRow>, id: nat)
    requires id !in SoldIds(rows)
    ensures SoldIn(rows, id) == 0
  {
    if rows != [] {
      SoldInOutside(rows[..|rows| - 1], id);
    }
  }

  /** Lines of other products, and lines of orders that are not sold, never change a cake's total. */
  lemma {:induction false} SoldInIgnoresOthers(rows: seq<SaleRow>, extra: SaleRow, id: nat)
    requires !CountsAsSold(extra) || extra.objectId != id
    ensures SoldIn(rows + [extra], id) == SoldIn(rows, id)
  {
    assert (rows + [extra])[..|rows|] == rows;
  }

  datatype Seller = Seller(cakeId: nat, totalSold: nat)

  /** The `values('object_id').annotate(total_sold=Sum('quantity'))` grouping: each sold cake once, with its total. */
  method SumPerCake(rows: seq<SaleRow>) returns (groups: seq<nat>, totals: map<nat, int>)
    ensures Distinct(groups) && Elems(groups) == SoldIds(rows)
    ensures forall c :: c in groups <==> c in totals
    ensures forall c :: c in totals ==> totals[c] == SoldIn(rows, c)
  {
    groups, totals := [], map[];
    var i := 0;
    while i < |rows|
      invariant 0 <= i <= |rows|
      invariant Distinct(groups)
      invariant forall c :: c in groups <==> c in totals
      invariant Elems(groups) == SoldIds(rows[..i])
      invariant forall c :: c in totals ==> totals[c] == SoldIn(rows[..i], c)
    {
      var r := rows[i];
      assert rows[..i + 1][..i] == rows[..i];
      forall c | c in totals && (!CountsAsSold(r) || r.objectId != c)
        ensures SoldIn(rows[..i + 1], c) == SoldIn(rows[..i], c)
      {
        assert rows[..i + 1] == rows[..i] + [r];
        SoldInIgnoresOthers(rows[..i], r, c);
      }
      if CountsAsSold(r) {
        if r.objectId in totals {
          totals := totals[r.objectId := totals[r.objectId] + r.quantity];
        } else {
          SoldInOutside(rows[..i], r.objectId);
          assert r.objectId !in Elems(groups);
          groups := groups + [r.objectId];
          totals := totals[r.objectId := r.quantity];
        }
      }
      i := i + 1;
    }
    assert rows[..|rows|] == rows;
  }

  /** A cake chosen before position k sold at least as much as the k-th, and is another cake. */
  lemma EarlierChoice(chosen: seq<nat>, totals: map<nat, int>, k: nat, x: nat)
    requires Distinct(chosen) && forall c :: c in chosen ==> c in totals
    requires NonIncreasing(chosen, totals)
    requires k < |chosen| && x in chosen[..k]
    ensures x != chosen[k] && totals[x] >= totals[chosen[k]]
  {
    var b :| 0 <= b < k && chosen[..k][b] == x;
    assert chosen[b] == x;
  }

  /** Keeps the chosen cakes that still exist, in the chosen order. */
  method ExistingSellers(chosen: seq<nat>, totals: map<nat, int>, cakes: set<nat>) returns (sellers: seq<Seller>)
    requires Distinct(chosen) && forall c :: c in chosen ==> c in totals && totals[c] >= 0
    requires NonIncreasing(chosen, totals)
    ensures forall s :: s in sellers <==> s.cakeId in chosen && s.cakeId in cakes && s.totalSold == totals[s.cakeId]
    ensures forall i, j :: 0 <= i < j < |sellers| ==> sellers[i].totalSold >= sellers[j].totalSold
    ensures Distinct(sellers)
  {
    sellers := [];
    var k := 0;
    while k < |chosen|
      invariant 0 <= k <= |chosen|
      invariant forall s :: s in sellers <==> s.cakeId in chosen[..k] && s.cakeId in cakes && s.totalSold == totals[s.cakeId]
      invariant forall a, b :: 0 <= a < b < |sellers| ==> sellers[a].totalSold >= sellers[b].totalSold
      invariant Distinct(sellers)
    {
      var c := chosen[k];
      assert chosen[..k + 1] == chosen[..k] + [c];
      if c in cakes {
        forall a | 0 <= a < |sellers|
          ensures sellers[a].totalSold >= totals[c] && sellers[a].cakeId != c
        {
          assert sellers[a] in sellers;
          EarlierChoice(chosen, totals, k, sellers[a].cakeId);
        }
        sellers := sellers + [Seller(c, totals[c])];
      }
      k := k + 1;
    }
    assert chosen[..|chosen|] == chosen;
  }

  /**
   * TopSellingProductsView.get: the totals per cake, the `limit` largest kept
   * (`chosen`), then the cakes among them that still exist, largest total first.
   */
  method TopSelling(rows: seq<SaleRow>, cakes: set<nat>, limitParam: Option<string>)
    returns (sellers: seq<Seller>, chosen: seq<nat>)
    ensures var limit := TopSellingLimit(limitParam);
      |chosen| == if limit < |SoldIds(rows)| then limit else |SoldIds(rows)|
    ensures Distinct(chosen) && forall c :: c in chosen ==> c in SoldIds(rows)
    ensures forall c, j :: c in SoldIds(rows) && c !in chosen && 0 <= j < |chosen| ==>
      SoldIn(rows, c) <= SoldIn(rows, chosen[j])
    ensures forall s :: s in sellers <==> s.cakeId in chosen && s.cakeId in cakes && s.totalSold == SoldIn(rows, s.cakeId)
    ensures forall i, j :: 0 <= i < j < |sellers| ==> sellers[i].totalSold >= sellers[j].totalSold
    ensures Distinct(sellers)
  {
    var limit := TopSellingLimit(limitParam);
    var groups, totals := SumPerCake(rows);
    DistinctCard(groups);
    chosen := TopK(groups, totals, limit);
    sellers := ExistingSellers(chosen, totals, cakes);
  }
}
