/**
 * The two data migrations that fill the Province and City tables
 * (users/migrations/0005_... and 0007_populate_locations.py). Province and
 * city ids are their positions in the tables plus one, as the auto-increment
 * keys of fresh tables give them.
 */
module Locations {
  import opened Wrappers
  import opened Text
  import opened Seqs

  datatype CityRow = CityRow(name: string, provinceId: nat)

  /** An address row during migration 0005: its old free-text city and its new city key. */
  datatype LegacyAddress = LegacyAddress(oldCity: string, cityId: Option<nat>)

  /** One parsed entry of the county list read by migration 0007. */
  datatype LocationItem = LocationItem(hasCountyCode: bool, provinceName: Option<string>, cityName: Option<string>)

  /** The province every migrated city is filed under ("unknown"). */
  const UnknownProvince: string := "نامشخص"

  /** Python truthiness of an optional string: present and not empty. */
  predicate Named(s: Option<string>)
  {
    s.Some? && s.value != ""
  }

  /** An item migration 0007 stores: it has a county code and both names. */
  predicate Processed(item: LocationItem)
  {
    item.hasCountyCode && Named(item.provinceName) && Named(item.cityName)
  }

  predicate CityNamesDistinct(cities: seq<CityRow>)
  {
    forall i, j :: 0 <= i < j < |cities| ==> cities[i].name != cities[j].name
  }

  /** The stored (stripped) names of a processed item. */
  function ProvinceOf(item: LocationItem): string
    requires Processed(item)
  {
    Trim(Python, item.provinceName.value)
  }

  function CityOf(item: LocationItem): string
    requires Processed(item)
  {
    Trim(Python, item.cityName.value)
  }

  /** Some processed item among the first `n` names this province. */
  predicate ProvinceFromItems(name: string, items: seq<LocationItem>, n: nat)
    requires n <= |items|
  {
    exists k :: 0 <= k < n && Processed(items[k]) && ProvinceOf(items[k]) == name
  }

  predicate CityFromItems(name: string, items: seq<LocationItem>, n: nat)
    requires n <= |items|
  {
    exists k :: 0 <= k < n && Processed(items[k]) && CityOf(items[k]) == name
  }

  lemma ProvinceFromItemsGrows(name: string, items: seq<LocationItem>, n: nat)
    requires n < |items| && ProvinceFromItems(name, items, n)
    ensures ProvinceFromItems(name, items, n + 1)
  {
    var k :| 0 <= k < n && Processed(items[k]) && ProvinceOf(items[k]) == name;
    assert 0 <= k < n + 1;
  }

  lemma CityFromItemsGrows(name: string, items: seq<LocationItem>, n: nat)
    requires n < |items| && CityFromItems(name, items, n)
    ensures CityFromItems(name, items, n + 1)
  {
    var k :| 0 <= k < n && Processed(items[k]) && CityOf(items[k]) == name;
    assert 0 <= k < n + 1;
  }

  /** The address keeps its old city text and points at an existing city of that name. */
  predicate Linked(a: LegacyAddress, oldCity: string, cities: seq<CityRow>)
  {
    a.oldCity == oldCity && a.cityId.Some? && 1 <= a.cityId.value <= |cities| && cities[a.cityId.value - 1].name == oldCity
  }

  lemma LinkedGrows(a: LegacyAddress, oldCity: string, cities: seq<CityRow>, cities': seq<CityRow>)
    requires Linked(a, oldCity, cities) && cities <= cities'
    ensures Linked(a, oldCity, cities')
  {
    assert cities'[a.cityId.value - 1] == cities[a.cityId.value - 1];
  }

  /** Every processed item among the first `n` has its province and, under it, its city. */
  predicate Covered(items: seq<LocationItem>, n: nat, provinces: seq<string>, cities: seq<CityRow>)
    requires n <= |items|
  {
    forall k :: 0 <= k < n && Processed(items[k]) ==>
      exists p :: 1 <= p <= |provinces| && provinces[p - 1] == ProvinceOf(items[k]) && CityRow(CityOf(items[k]), p) in cities
  }

  /** The provinces and cities after the first `p0` and `c0` rows are all named by the first `n` items. */
  predicate AddedFromItems(items: seq<LocationItem>, n: nat, provinces: seq<string>, p0: nat, cities: seq<CityRow>, c0: nat)
    requires n <= |items|
  {
    && (forall j :: p0 <= j < |provinces| ==> ProvinceFromItems(provinces[j], items, n))
    && (forall j :: c0 <= j < |cities| ==> CityFromItems(cities[j].name, items, n))
  }

  /** Storing item `i` (or skipping it) carries both facts from the first `i` items to the first `i + 1`. */
  lemma PopulateStep(items: seq<LocationItem>, i: nat, p0: nat, c0: nat,
                     provinces: seq<string>, cities: seq<CityRow>, provinces': seq<string>, cities': seq<CityRow>)
    requires i < |items|
    requires Covered(items, i, provinces, cities) && AddedFromItems(items, i, provinces, p0, cities, c0)
    requires provinces <= provinces' && cities <= cities'
    requires !Processed(items[i]) ==> provinces' == provinces && cities' == cities
    requires Processed(items[i]) ==>
      && (forall j :: |provinces| <= j < |provinces'| ==> provinces'[j] == ProvinceOf(items[i]))
      && (forall j :: |cities| <= j < |cities'| ==> cities'[j].name == CityOf(items[i]))
      && exists p :: 1 <= p <= |provinces'| && provinces'[p - 1] == ProvinceOf(items[i]) && CityRow(CityOf(items[i]), p) in cities'
    ensures Covered(items, i + 1, provinces', cities') && AddedFromItems(items, i + 1, provinces', p0, cities', c0)
  {
    forall k | 0 <= k < i + 1 && Processed(items[k])
      ensures exists p :: 1 <= p <= |provinces'| && provinces'[p - 1] == ProvinceOf(items[k]) && CityRow(CityOf(items[k]), p) in cities'
    {
      if k < i {
        var p :| 1 <= p <= |provinces| && provinces[p - 1] == ProvinceOf(items[k]) && CityRow(CityOf(items[k]), p) in cities;
        assert provinces'[p - 1] == provinces[p - 1];
      }
    }
    forall j | p0 <= j < |provinces'|
      ensures ProvinceFromItems(provinces'[j], items, i + 1)
    {
      if j < |provinces| {
        assert provinces'[j] == provinces[j];
        ProvinceFromItemsGrows(provinces'[j], items, i);
      } else {
        assert ProvinceOf(items[i]) == provinces'[j];
      }
    }
    forall j | c0 <= j < |cities'|
      ensures CityFromItems(cities'[j].name, items, i + 1)
    {
      if j < |cities| {
        assert cities'[j] == cities[j];
        CityFromItemsGrows(cities'[j].name, items, i);
      } else {
        assert CityOf(items[i]) == cities'[j].name;
      }
    }
  }

  class LocationTables {
    var provinces: seq<string>
    var cities: seq<CityRow>
    var addresses: seq<LegacyAddress>

    /** Province.name is unique, and every city refers to an existing province. */
    ghost predicate ProvincesValid()
      reads this`provinces, this`cities
    {
      Distinct(provinces) && forall c :: c in cities ==> 1 <= c.provinceId <= |provinces|
    }

    constructor(addresses: seq<LegacyAddress>)
      ensures this.addresses == addresses && provinces == [] && cities == []
    {
      this.addresses := addresses;
      provinces := [];
      cities := [];
    }

    /** `Province.objects.get_or_create(name=name)`. */
    method ProvinceNamed(name: string) returns (id: nat)
      requires ProvincesValid()
      modifies this`provinces
      ensures ProvincesValid()
      ensures 1 <= id <= |provinces| && provinces[id - 1] == name
      ensures name in old(provinces) ==> provinces == old(provinces)
      ensures name !in old(provinces) ==> provinces == old(provinces) + [name]
    {
      var i := 0;
      while i < |provinces|
        invariant 0 <= i <= |provinces|
        invariant forall j :: 0 <= j < i ==> provinces[j] != name
      {
        if provinces[i] == name {
          return i + 1;
        }
        i := i + 1;
      }
      provinces := provinces + [name];
      id := |provinces|;
    }

    /**
     * `City.objects.get_or_create(name=name, defaults={'province': province})`:
     * the lookup is by name alone; the default province is used only when a
     * city is created.
     */
    method CityNamed(name: string, province: nat) returns (id: nat)
      requires ProvincesValid() && CityNamesDistinct(cities) && 1 <= province <= |provinces|
      modifies this`cities
      ensures ProvincesValid() && CityNamesDistinct(cities)
      ensures 1 <= id <= |cities| && cities[id - 1].name == name
      ensures (exists j :: 0 <= j < |old(cities)| && old(cities)[j].name == name) ==> cities == old(cities)
      ensures !(exists j :: 0 <= j < |old(cities)| && old(cities)[j].name == name) ==>
        cities == old(cities) + [CityRow(name, province)]
    {
      var i := 0;
      while i < |cities|
        invariant 0 <= i <= |cities|
        invariant forall j :: 0 <= j < i ==> cities[j].name != name
      {
        if cities[i].name == name {
          return i + 1;
        }
        i := i + 1;
      }
      cities := cities + [CityRow(name, province)];
      id := |cities|;
    }

    /** `City.objects.get_or_create(name=name, province=province)`: the lookup uses both. */
    method CityIn(name: string, province: nat) returns (id: nat)
      requires ProvincesValid() && Distinct(cities) && 1 <= province <= |provinces|
      modifies this`cities
      ensures ProvincesValid() && Distinct(cities)
      ensures 1 <= id <= |cities| && cities[id - 1] == CityRow(name, province)
      ensures CityRow(name, province) in old(cities) ==> cities == old(cities)
      ensures CityRow(name, province) !in old(cities) ==> cities == old(cities) + [CityRow(name, province)]
    {
      var i := 0;
      while i < |cities|
        invariant 0 <= i <= |cities|
        invariant forall j :: 0 <= j < i ==> cities[j] != CityRow(name, province)
      {
        if cities[i] == CityRow(name, province) {
          return i + 1;
        }
        i := i + 1;
      }
      cities := cities + [CityRow(name, province)];
      id := |cities|;
    }

    /**
     * Migration 0005's forwards_func: every address with a non-empty old city
     * text is linked to the city of that name, created under the "unknown"
     * province when it does not exist yet; other addresses are left alone.
     */
    method ForwardsFunc() returns (unknown: nat)
      requires ProvincesValid() && CityNamesDistinct(cities)
      modifies this
      ensures ProvincesValid() && CityNamesDistinct(cities)
      ensures 1 <= unknown <= |provinces| && provinces[unknown - 1] == UnknownProvince
      ensures provinces == old(provinces) || provinces == old(provinces) + [UnknownProvince]
      ensures |cities| >= |old(cities)| && cities[..|old(cities)|] == old(cities)
      ensures forall j :: |old(cities)| <= j < |cities| ==> cities[j].provinceId == unknown
      ensures |addresses| == |old(addresses)|
      ensures forall i :: 0 <= i < |addresses| && old(addresses)[i].oldCity == "" ==> addresses[i] == old(addresses)[i]
      ensures forall i :: 0 <= i < |addresses| && old(addresses)[i].oldCity != "" ==> Linked(addresses[i], old(addresses)[i].oldCity, cities)
    {
      unknown := ProvinceNamed(UnknownProvince);
      var i := 0;
      while i < |addresses|
        invariant 0 <= i <= |addresses| == |old(addresses)|
        invariant ProvincesValid() && CityNamesDistinct(cities)
        invariant 1 <= unknown <= |provinces| && provinces[unknown - 1] == UnknownProvince
        invariant provinces == old(provinces) || provinces == old(provinces) + [UnknownProvince]
        invariant old(cities) <= cities
        invariant forall j :: |old(cities)| <= j < |cities| ==> cities[j].provinceId == unknown
        invariant forall k :: i <= k < |addresses| ==> addresses[k] == old(addresses)[k]
        invariant forall k :: 0 <= k < i && old(addresses)[k].oldCity == "" ==> addresses[k] == old(addresses)[k]
        invariant forall k :: 0 <= k < i && old(addresses)[k].oldCity != "" ==> Linked(addresses[k], old(addresses)[k].oldCity, cities)
      {
        ghost var before := cities;
        LinkAddress(i, unknown);
        assert old(cities) <= cities by {
          assert cities[..|old(cities)|] == before[..|old(cities)|];
        }
        forall k | 0 <= k < i && old(addresses)[k].oldCity != ""
          ensures Linked(addresses[k], old(addresses)[k].oldCity, cities)
        {
          LinkedGrows(addresses[k], old(addresses)[k].oldCity, before, cities);
        }
        i := i + 1;
      }
    }

    /**
     * One pass of forwards_func: an address with an old city text is linked to
     * the city of that name, which is created under `unknown` when missing.
     */
    method LinkAddress(i: nat, unknown: nat)
      requires i < |addresses| && ProvincesValid() && CityNamesDistinct(cities) && 1 <= unknown <= |provinces|
      modifies this`cities, this`addresses
      ensures ProvincesValid() && CityNamesDistinct(cities)
      ensures old(cities) <= cities && forall j :: |old(cities)| <= j < |cities| ==> cities[j].provinceId == unknown
      ensures |addresses| == |old(addresses)| && forall k :: 0 <= k < |addresses| && k != i ==> addresses[k] == old(addresses)[k]
      ensures old(addresses)[i].oldCity == "" ==> addresses[i] == old(addresses)[i]
      ensures old(addresses)[i].oldCity != "" ==> Linked(addresses[i], old(addresses)[i].oldCity, cities)
    {
      var name := addresses[i].oldCity;
      if name != "" {
        var city := CityNamed(name, unknown);
        addresses := addresses[i := addresses[i].(cityId := Some(city))];
      }
    }

    /** One pass of migration 0007's loop: item `i` is stored when it has a county code and both names. */
    method PopulateItem(items: seq<LocationItem>, i: nat, ghost p0: nat, ghost c0: nat)
      requires i < |items| && ProvincesValid() && Distinct(cities)
      requires Covered(items, i, provinces, cities) && AddedFromItems(items, i, provinces, p0, cities, c0)
      modifies this`provinces, this`cities
      ensures ProvincesValid() && Distinct(cities)
      ensures old(provinces) <= provinces && old(cities) <= cities
      ensures Covered(items, i + 1, provinces, cities) && AddedFromItems(items, i + 1, provinces, p0, cities, c0)
    {
      var item := items[i];
      if Processed(item) {
        var p := ProvinceNamed(Trim(Python, item.provinceName.value));
        var _ := CityIn(Trim(Python, item.cityName.value), p);
        assert 1 <= p <= |provinces| && provinces[p - 1] == ProvinceOf(items[i]) && CityRow(CityOf(items[i]), p) in cities;
      }
      PopulateStep(items, i, p0, c0, old(provinces), old(cities), provinces, cities);
    }

    /**
     * Migration 0007's loop over the parsed county list: for each item with a
     * county code and both names, the stripped province name and the stripped
     * city name under that province are found or created.
     */
    method PopulateLocations(items: seq<LocationItem>)
      requires ProvincesValid() && Distinct(cities)
      modifies this`provinces, this`cities
      ensures ProvincesValid() && Distinct(cities)
      ensures |provinces| >= |old(provinces)| && provinces[..|old(provinces)|] == old(provinces)
      ensures |cities| >= |old(cities)| && cities[..|old(cities)|] == old(cities)
      ensures forall k :: 0 <= k < |items| && Processed(items[k]) ==>
        exists p :: 1 <= p <= |provinces| && provinces[p - 1] == Trim(Python, items[k].provinceName.value)
          && CityRow(Trim(Python, items[k].cityName.value), p) in cities
      ensures forall j :: |old(provinces)| <= j < |provinces| ==> ProvinceFromItems(provinces[j], items, |items|)
      ensures forall j :: |old(cities)| <= j < |cities| ==> CityFromItems(cities[j].name, items, |items|)
    {
      var i := 0;
      while i < |items|
        invariant 0 <= i <= |items|
        invariant ProvincesValid() && Distinct(cities)
        invariant old(provinces) <= provinces && old(cities) <= cities
        invariant Covered(items, i, provinces, cities)
        invariant AddedFromItems(items, i, provinces, |old(provinces)|, cities, |old(cities)|)
      {
        ghost var before := provinces;
        ghost var citiesBefore := cities;
        PopulateItem(items, i, |old(provinces)|, |old(cities)|);
        assert old(provinces) <= provinces by {
          assert provinces[..|old(provinces)|] == before[..|old(provinces)|];
        }
        assert old(cities) <= cities by {
          assert cities[..|old(cities)|] == citiesBefore[..|old(cities)|];
        }
        i := i + 1;
      }
    }
  }
}
