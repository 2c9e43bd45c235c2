/** The points-of-interest endpoints over the in-memory store: a shared list
    of cities, each holding the list of its points of interest, changed in
    place by the actions. */
module PointsOfInterestInMemory {
  import opened Primitives
  import opened Entities
  import opened Views
  import opened JsonPatch
  import opened Mail

  /** A city as the in-memory store holds it. */
  datatype CityDto = CityDto(id: Int32, name: Text, description: Text, pointsOfInterest: seq<PointOfInterestDto>)

  /** The shared store (`CitiesDataStore.Current`). */
  class CitiesDataStore {
    var cities: seq<CityDto>

    constructor (cities: seq<CityDto>)
      ensures this.cities == cities
    {
      this.cities := cities;
    }
  }

  // ---------------------------------------------------------------------
  // Lookups and the id the store hands out

  /** `Cities.FirstOrDefault(c => c.Id == cityId)`, as an index. */
  function FindCity(cities: seq<CityDto>, cityId: Int32): (r: Option<nat>)
    ensures r.Some? ==> r.value < |cities| && cities[r.value].id == cityId
    ensures r.Some? ==> forall k :: 0 <= k < r.value ==> cities[k].id != cityId
    ensures r.None? <==> forall k :: 0 <= k < |cities| ==> cities[k].id != cityId
  {
    FirstIndex(cities, (c: CityDto) => c.id == cityId)
  }

  /** `PointsOfInterest.FirstOrDefault(p => p.Id == id)`, as an index. */
  function FindPointOfInterest(pois: seq<PointOfInterestDto>, id: Int32): (r: Option<nat>)
    ensures r.Some? ==> r.value < |pois| && pois[r.value].id == id
    ensures r.Some? ==> forall k :: 0 <= k < r.value ==> pois[k].id != id
    ensures r.None? <==> forall k :: 0 <= k < |pois| ==> pois[k].id != id
  {
    FirstIndex(pois, (p: PointOfInterestDto) => p.id == id)
  }

  datatype Lookup = NoCity | NoItem(city: nat) | Found(city: nat, item: nat)

  /** The lookup every single-item action makes: the first city with
      `cityId`, then the first item with `id` in THAT city's list only. */
  function Locate(cities: seq<CityDto>, cityId: Int32, id: Int32): (r: Lookup)
    ensures r.NoCity? <==> forall k :: 0 <= k < |cities| ==> cities[k].id != cityId
    ensures !r.NoCity? ==> FindCity(cities, cityId) == Some(r.city)
    ensures r.NoItem? ==> r.city < |cities| && forall j :: 0 <= j < |cities[r.city].pointsOfInterest| ==> cities[r.city].pointsOfInterest[j].id != id
    ensures r.Found? ==> r.city < |cities| && r.item < |cities[r.city].pointsOfInterest|
    ensures r.Found? ==> cities[r.city].pointsOfInterest[r.item].id == id
    ensures r.Found? ==> FindPointOfInterest(cities[r.city].pointsOfInterest, id) == Some(r.item)
  {
    match FindCity(cities, cityId)
    case None => NoCity
    case Some(i) =>
      match FindPointOfInterest(cities[i].pointsOfInterest, id)
      case None => NoItem(i)
      case Some(j) => Found(i, j)
  }

  /** Lookups are scoped by city: an id that is held only by other cities'
      lists is not found under this one. */
  lemma LookupIsScopedByCity(cities: seq<CityDto>, cityId: Int32, id: Int32, other: nat, j: nat)
    requires other < |cities| && j < |cities[other].pointsOfInterest| && cities[other].pointsOfInterest[j].id == id
    requires forall k :: 0 <= k < |cities| && cities[k].id == cityId ==>
               forall q :: 0 <= q < |cities[k].pointsOfInterest| ==> cities[k].pointsOfInterest[q].id != id
    ensures !Locate(cities, cityId, id).Found?
  {
  }

  /** `Cities.SelectMany(c => c.PointsOfInterest)`. */
  function AllPointsOfInterest(cities: seq<CityDto>): (r: seq<PointOfInterestDto>)
    ensures forall i, j :: 0 <= i < |cities| && 0 <= j < |cities[i].pointsOfInterest| ==> cities[i].pointsOfInterest[j] in r
    ensures forall p :: p in r ==> exists i :: 0 <= i < |cities| && p in cities[i].pointsOfInterest
    decreases |cities|
  {
    if cities == [] then [] else cities[0].pointsOfInterest + AllPointsOfInterest(cities[1..])
  }

  /** `.Max(p => p.Id)`; None where LINQ raises on an empty sequence. */
  function MaxId(pois: seq<PointOfInterestDto>): (r: Option<Int32>)
    ensures r.None? <==> pois == []
    ensures r.Some? ==> forall p :: p in pois ==> p.id <= r.value
    ensures r.Some? ==> exists p :: p in pois && p.id == r.value
    decreases |pois|
  {
    if pois == [] then None
    else
      match MaxId(pois[1..])
      case None => Some(pois[0].id)
      case Some(m) => Some(if pois[0].id < m then m else pois[0].id)
  }

  /** Every key held anywhere in the store is below `bound`. */
  ghost predicate IdsBelow(cities: seq<CityDto>, bound: int) {
    forall i, j :: 0 <= i < |cities| && 0 <= j < |cities[i].pointsOfInterest| ==> cities[i].pointsOfInterest[j].id < bound
  }

  /** No two points of interest of the store, in one city or in two, share a key. */
  ghost predicate UniqueIds(cities: seq<CityDto>) {
    forall i, j, i', j' ::
      && 0 <= i < |cities| && 0 <= j < |cities[i].pointsOfInterest|
      && 0 <= i' < |cities| && 0 <= j' < |cities[i'].pointsOfInterest|
      && cities[i].pointsOfInterest[j].id == cities[i'].pointsOfInterest[j'].id
      ==> i == i' && j == j'
  }

  /** The key a create hands out as the source writes it: the largest key
      over every city's list, incremented in C#'s unchecked arithmetic. */
  function NextIdAsWritten(cities: seq<CityDto>): (r: Option<Int32>)
    ensures r.None? <==> AllPointsOfInterest(cities) == []
    ensures r.Some? && MaxId(AllPointsOfInterest(cities)).value < MaxInt32 ==> r == NextId(cities)
    ensures r.Some? && MaxId(AllPointsOfInterest(cities)).value == MaxInt32 ==> r.value == MinInt32
  {
    match MaxId(AllPointsOfInterest(cities))
    case None => None
    case Some(m) => Some(UncheckedIncrement(m))
  }

  /** As written, the increment wraps at `int.MaxValue`: a store holding the
      keys `int.MaxValue` and `int.MinValue` hands out `int.MinValue` again. */
  lemma NextIdAsWrittenRepeatsAKey()
    ensures var store := [CityDto(1, Some("New York City"), None,
                                  [PointOfInterestDto(MaxInt32, Some("Central Park"), None),
                                   PointOfInterestDto(MinInt32, Some("Empire State Building"), None)])];
            && UniqueIds(store)
            && NextIdAsWritten(store) == Some(MinInt32 as Int32)
            && store[0].pointsOfInterest[1].id == MinInt32
  {
    var store := [CityDto(1, Some("New York City"), None,
                          [PointOfInterestDto(MaxInt32, Some("Central Park"), None),
                           PointOfInterestDto(MinInt32, Some("Empire State Building"), None)])];
    var all := AllPointsOfInterest(store);
    assert store[1..] == [];
    assert AllPointsOfInterest(store[1..]) == [];
    assert all == store[0].pointsOfInterest + [];
    assert MaxId(all[1..]) == Some(MinInt32 as Int32);
  }

  /** The key a create hands out, with the increment checked: None where the
      largest key is `int.MaxValue` (or the store holds no key at all). */
  function NextId(cities: seq<CityDto>): (r: Option<Int32>)
    ensures r.Some? ==> IdsBelow(cities, r.value)
    ensures r.Some? <==> exists m :: MaxId(AllPointsOfInterest(cities)) == Some(m) && m < MaxInt32
    ensures r.Some? ==> r.value == MaxId(AllPointsOfInterest(cities)).value + 1
  {
    match MaxId(AllPointsOfInterest(cities))
    case None => None
    case Some(m) => CheckedIncrement(m)
  }

  // ---------------------------------------------------------------------
  // The in-place changes the actions make, as functions of the store

  /** `city.PointsOfInterest.Add(p)` on the `i`-th city. */
  function AppendPointOfInterest(cities: seq<CityDto>, i: nat, p: PointOfInterestDto): (r: seq<CityDto>)
    requires i < |cities|
    ensures |r| == |cities|
    ensures r[i] == cities[i].(pointsOfInterest := cities[i].pointsOfInterest + [p])
    ensures forall k :: 0 <= k < |cities| && k != i ==> r[k] == cities[k]
  {
    cities[i := cities[i].(pointsOfInterest := cities[i].pointsOfInterest + [p])]
  }

  /** Assigning `Name` and `Description` of item `j` of city `i`. */
  function OverwriteFields(cities: seq<CityDto>, i: nat, j: nat, name: Text, description: Text): (r: seq<CityDto>)
    requires i < |cities| && j < |cities[i].pointsOfInterest|
    ensures |r| == |cities|
    ensures forall k :: 0 <= k < |cities| && k != i ==> r[k] == cities[k]
    ensures r[i].id == cities[i].id && r[i].name == cities[i].name && r[i].description == cities[i].description
    ensures |r[i].pointsOfInterest| == |cities[i].pointsOfInterest|
    ensures forall q :: 0 <= q < |cities[i].pointsOfInterest| && q != j ==> r[i].pointsOfInterest[q] == cities[i].pointsOfInterest[q]
    ensures r[i].pointsOfInterest[j] == PointOfInterestDto(cities[i].pointsOfInterest[j].id, name, description)
  {
    var pois := cities[i].pointsOfInterest;
    cities[i := cities[i].(pointsOfInterest := pois[j := pois[j].(name := name, description := description)])]
  }

  /** `city.PointsOfInterest.Remove(item)` for item `j` of city `i`. */
  function RemovePointOfInterest(cities: seq<CityDto>, i: nat, j: nat): (r: seq<CityDto>)
    requires i < |cities| && j < |cities[i].pointsOfInterest|
    ensures |r| == |cities|
    ensures r[i] == cities[i].(pointsOfInterest := RemoveAt(cities[i].pointsOfInterest, j))
    ensures forall k :: 0 <= k < |cities| && k != i ==> r[k] == cities[k]
  {
    cities[i := cities[i].(pointsOfInterest := RemoveAt(cities[i].pointsOfInterest, j))]
  }

  /** Keys are fresh with respect to the items held now, not to every key
      ever handed out: once the item with the largest key is deleted, the
      next create hands that key out again. */
  lemma DeletedLargestKeyIsReissued()
    ensures var store := [CityDto(1, Some("New York City"), None,
                                  [PointOfInterestDto(1, Some("Central Park"), None),
                                   PointOfInterestDto(2, Some("Empire State Building"), None)])];
            && NextId(store) == Some(3)
            && NextId(RemovePointOfInterest(store, 0, 1)) == Some(2)
  {
    var store := [CityDto(1, Some("New York City"), None,
                          [PointOfInterestDto(1, Some("Central Park"), None),
                           PointOfInterestDto(2, Some("Empire State Building"), None)])];
    var after := RemovePointOfInterest(store, 0, 1);
    assert store[1..] == [] && after[1..] == [];
    assert AllPointsOfInterest(store[1..]) == [] && AllPointsOfInterest(after[1..]) == [];
    assert AllPointsOfInterest(store) == store[0].pointsOfInterest + [];
    assert AllPointsOfInterest(after) == after[0].pointsOfInterest + [];
    assert after[0].pointsOfInterest == [PointOfInterestDto(1, Some("Central Park"), None)];
    assert store[0].pointsOfInterest[1..] == [PointOfInterestDto(2, Some("Empire State Building"), None)];
  }

  /** Adding an item whose key is above every key keeps keys unique. */
  lemma AppendFreshKeepsIdsUnique(cities: seq<CityDto>, i: nat, p: PointOfInterestDto)
    requires i < |cities| && UniqueIds(cities) && IdsBelow(cities, p.id)
    ensures UniqueIds(AppendPointOfInterest(cities, i, p))
  {
    var r := AppendPointOfInterest(cities, i, p);
    forall a, b, a', b' |
      && 0 <= a < |r| && 0 <= b < |r[a].pointsOfInterest|
      && 0 <= a' < |r| && 0 <= b' < |r[a'].pointsOfInterest|
      && r[a].pointsOfInterest[b].id == r[a'].pointsOfInterest[b'].id
      ensures a == a' && b == b'
    {
      var isNew := a == i && b == |cities[i].pointsOfInterest|;
      var isNew' := a' == i && b' == |cities[i].pointsOfInterest|;
      if !isNew {
        assert r[a].pointsOfInterest[b] == cities[a].pointsOfInterest[b];
      }
      if !isNew' {
        assert r[a'].pointsOfInterest[b'] == cities[a'].pointsOfInterest[b'];
      }
    }
  }

  /** Overwriting fields leaves every key where it was. */
  lemma OverwriteKeepsIdsUnique(cities: seq<CityDto>, i: nat, j: nat, name: Text, description: Text)
    requires i < |cities| && j < |cities[i].pointsOfInterest| && UniqueIds(cities)
    ensures UniqueIds(OverwriteFields(cities, i, j, name, description))
  {
    var r := OverwriteFields(cities, i, j, name, description);
    assert forall a, b :: 0 <= a < |r| && 0 <= b < |r[a].pointsOfInterest| ==>
      b < |cities[a].pointsOfInterest| && r[a].pointsOfInterest[b].id == cities[a].pointsOfInterest[b].id;
  }

  /** Removing an item keeps keys unique, and with unique keys the removed
      key is no longer found under its city. */
  lemma RemoveKeepsIdsUniqueAndForgets(cities: seq<CityDto>, cityId: Int32, id: Int32)
    requires UniqueIds(cities) && Locate(cities, cityId, id).Found?
    ensures var l := Locate(cities, cityId, id);
            var r := RemovePointOfInterest(cities, l.city, l.item);
            && UniqueIds(r)
            && Locate(r, cityId, id) == NoItem(l.city)
            && |r[l.city].pointsOfInterest| == |cities[l.city].pointsOfInterest| - 1
  {
    var l := Locate(cities, cityId, id);
    var i, j := l.city, l.item;
    var r := RemovePointOfInterest(cities, i, j);
    RemoveOrigin(cities, i, j);
    forall a, b, a', b' |
      && 0 <= a < |r| && 0 <= b < |r[a].pointsOfInterest|
      && 0 <= a' < |r| && 0 <= b' < |r[a'].pointsOfInterest|
      && r[a].pointsOfInterest[b].id == r[a'].pointsOfInterest[b'].id
      ensures a == a' && b == b'
    {
      var b0 := if a == i && b >= j then b + 1 else b;
      var b0' := if a' == i && b' >= j then b' + 1 else b';
      assert cities[a].pointsOfInterest[b0].id == cities[a'].pointsOfInterest[b0'].id;
    }
    forall q | 0 <= q < |r[i].pointsOfInterest|
      ensures r[i].pointsOfInterest[q].id != id
    {
      var q0 := if q >= j then q + 1 else q;
      assert r[i].pointsOfInterest[q] == cities[i].pointsOfInterest[q0];
    }
    assert forall k :: 0 <= k < |r| ==> r[k].id == cities[k].id;
  }

  /** Where each item left by a removal came from: items after the removed
      one move down one place, all others stay. */
  lemma RemoveOrigin(cities: seq<CityDto>, i: nat, j: nat)
    requires i < |cities| && j < |cities[i].pointsOfInterest|
    ensures var r := RemovePointOfInterest(cities, i, j);
            forall a, b :: 0 <= a < |r| && 0 <= b < |r[a].pointsOfInterest| ==>
              var b0 := if a == i && b >= j then b + 1 else b;
              b0 < |cities[a].pointsOfInterest| && r[a].pointsOfInterest[b] == cities[a].pointsOfInterest[b0]
  {
  }

  // ---------------------------------------------------------------------
  // The controller

  /** The route the in-memory create names in its Location header, as
      written: the single-item route of the database-backed controller. */
  function CreatedRouteAsWritten(): (r: string)
    ensures r == ItemRoute
  {
    ItemRoute
  }

  /** As written, the Location of an item created in memory points at the
      database-backed endpoint, not at the in-memory GET registered for it. */
  lemma CreatedRouteAsWrittenMissesInMemoryRoute()
    ensures CreatedRouteAsWritten() != InMemoryItemRoute
  {
  }

  /** The copy of a stored item that a patch is applied to. */
  function PatchBase(p: PointOfInterestDto): (v: PointOfInterestForUpdateDto)
    ensures v.name == p.name && v.description == p.description
  {
    PointOfInterestForUpdateDto(p.name, p.description)
  }

  /** A patch whose paths all resolve, but which leaves the description
      equal to the name, is refused by the cross-field rule; for instance,
      replacing the description of Central Park with "Central Park". */
  lemma PatchToSameNameIsRefused(ops: PatchDocument, p: PointOfInterestDto)
    requires forall k :: 0 <= k < |ops| ==> Resolve(ops[k].path).Some?
    requires LastWritten(ops, DescriptionMember, p.description) == LastWritten(ops, NameMember, p.name)
    ensures ApplyTo(ops, PatchBase(p)).errors == {}
    ensures DescriptionSameAsName in PatchValidationErrors(ApplyTo(ops, PatchBase(p)).document.name, ApplyTo(ops, PatchBase(p)).document.description)
  {
    ApplyToMeaning(ops, PatchBase(p));
  }

  lemma CentralParkDescriptionRefused()
    ensures var p := PointOfInterestDto(1, Some("Central Park"), Some("The most visited urban park in the United States."));
            var ops := [Operation(Replace, "/description", Some("Central Park"))];
            var patched := ApplyTo(ops, PatchBase(p));
            patched.errors == {} && DescriptionSameAsName in PatchValidationErrors(patched.document.name, patched.document.description)
  {
    var p := PointOfInterestDto(1, Some("Central Park"), Some("The most visited urban park in the United States."));
    var ops := [Operation(Replace, "/description", Some("Central Park"))];
    assert Resolve(ops[0].path) == Some(DescriptionMember);
    LastWrittenUntouched(ops, NameMember, p.name);
    LastWrittenByLast(ops, DescriptionMember, p.description, 0);
    PatchToSameNameIsRefused(ops, p);
  }

  class PointsOfInterestControllerInMemory {
    const store: CitiesDataStore
    const mailService: MailService

    constructor (store: CitiesDataStore, mailService: MailService)
      ensures this.store == store && this.mailService == mailService
    {
      this.store := store;
      this.mailService := mailService;
    }

    /** GET .../{cityId}/pointsofinterest: NotFound when no city has the id,
        otherwise the list of the first city that has it. Nothing on this
        path raises over an in-memory list, so the catch-all 500 is never
        given. */
    method GetPointsOfInterest(cityId: Int32) returns (r: Response)
      ensures r == NotFound <==> forall k :: 0 <= k < |store.cities| ==> store.cities[k].id != cityId
      ensures r != NotFound ==> exists k :: FindCity(store.cities, cityId) == Some(k) && r == Ok(store.cities[k].pointsOfInterest)
    {
      var city := FindCity(store.cities, cityId);
      if city.None? {
        return NotFound;
      }
      return Ok(store.cities[city.value].pointsOfInterest);
    }

    /** GET .../{cityId}/pointofinterest/{id}: NotFound when the city or the
        item within that city is missing, otherwise the item. */
    method GetPointOfInterest(cityId: Int32, id: Int32) returns (r: Response)
      ensures r == NotFound <==> !Locate(store.cities, cityId, id).Found?
      ensures r != NotFound ==> var l := Locate(store.cities, cityId, id);
                               r == OkItem(store.cities[l.city].pointsOfInterest[l.item]) && r.pointOfInterest.id == id
    {
      var city := FindCity(store.cities, cityId);
      if city.None? {
        return NotFound;
      }
      var item := FindPointOfInterest(store.cities[city.value].pointsOfInterest, id);
      if item.None? {
        return NotFound;
      }
      return OkItem(store.cities[city.value].pointsOfInterest[item.value]);
    }

    /** POST .../{cityId}/pointsofinterest. Refusals come in a fixed order and
        change nothing: a missing body, then an invalid one (before any city
        is looked up), then an unknown city; `Max` over a store without any
        item raises, and so does (in this model) an increment past
        `int.MaxValue`. Otherwise exactly one item, with the body's fields and
        a key above every key in the store, is appended to the first city
        with the id, and no other list changes. */
    method CreatePointOfInterest(cityId: Int32, body: Option<PointOfInterestForCreationDto>) returns (r: Response)
      modifies store
      ensures body.None? ==> r == BadRequest({}) && store.cities == old(store.cities)
      ensures body.Some? && ValidationErrors(body.value.name, body.value.description) != {} ==>
                r == BadRequest(ValidationErrors(body.value.name, body.value.description)) && store.cities == old(store.cities)
      ensures body.Some? && ValidationErrors(body.value.name, body.value.description) == {} && FindCity(old(store.cities), cityId).None? ==>
                r == NotFound && store.cities == old(store.cities)
      ensures body.Some? && ValidationErrors(body.value.name, body.value.description) == {} && FindCity(old(store.cities), cityId).Some?
              && NextId(old(store.cities)).None? ==>
                r == UnhandledException && store.cities == old(store.cities)
      ensures r.CreatedAtRoute? <==>
                body.Some? && ValidationErrors(body.value.name, body.value.description) == {}
                && FindCity(old(store.cities), cityId).Some? && NextId(old(store.cities)).Some?
      ensures r.CreatedAtRoute? ==>
                && r.routeName == InMemoryItemRoute && r.cityId == cityId
                && r.id == NextId(old(store.cities)).value && r.created.id == r.id
                && IdsBelow(old(store.cities), r.id)
                && r.created == PointOfInterestDto(r.id, body.value.name, body.value.description)
                && store.cities == AppendPointOfInterest(old(store.cities), FindCity(old(store.cities), cityId).value, r.created)
      ensures UniqueIds(old(store.cities)) ==> UniqueIds(store.cities)
    {
      if body.None? {
        return BadRequest({});
      }
      var errors := ValidationErrors(body.value.name, body.value.description);
      if errors != {} {
        return BadRequest(errors);
      }
      var city := FindCity(store.cities, cityId);
      if city.None? {
        return NotFound;
      }
      var next := NextId(store.cities);
      if next.None? {
        return UnhandledException;
      }
      var created := PointOfInterestDto(next.value, body.value.name, body.value.description);
      if UniqueIds(store.cities) {
        AppendFreshKeepsIdsUnique(store.cities, city.value, created);
      }
      store.cities := AppendPointOfInterest(store.cities, city.value, created);
      return CreatedAtRoute(InMemoryItemRoute, cityId, created.id, created);
    }

    /** PUT .../{cityId}/pointsofinterest/{id}: the body is checked BEFORE the
        lookups; on success only the target item's name and description
        change, its key and every other item stay as they were. */
    method UpdatePointOfInterest(cityId: Int32, id: Int32, body: Option<PointOfInterestForUpdateDto>) returns (r: Response)
      modifies store
      ensures body.None? ==> r == BadRequest({}) && store.cities == old(store.cities)
      ensures body.Some? && ValidationErrors(body.value.name, body.value.description) != {} ==>
                r == BadRequest(ValidationErrors(body.value.name, body.value.description)) && store.cities == old(store.cities)
      ensures body.Some? && ValidationErrors(body.value.name, body.value.description) == {} && !Locate(old(store.cities), cityId, id).Found? ==>
                r == NotFound && store.cities == old(store.cities)
      ensures body.Some? && ValidationErrors(body.value.name, body.value.description) == {} && Locate(old(store.cities), cityId, id).Found? ==>
                var l := Locate(old(store.cities), cityId, id);
                r == NoContent && store.cities == OverwriteFields(old(store.cities), l.city, l.item, body.value.name, body.value.description)
      ensures UniqueIds(old(store.cities)) ==> UniqueIds(store.cities)
    {
      if body.None? {
        return BadRequest({});
      }
      var errors := ValidationErrors(body.value.name, body.value.description);
      if errors != {} {
        return BadRequest(errors);
      }
      var city := FindCity(store.cities, cityId);
      if city.None? {
        return NotFound;
      }
      var item := FindPointOfInterest(store.cities[city.value].pointsOfInterest, id);
      if item.None? {
        return NotFound;
      }
      if UniqueIds(store.cities) {
        OverwriteKeepsIdsUnique(store.cities, city.value, item.value, body.value.name, body.value.description);
      }
      store.cities := OverwriteFields(store.cities, city.value, item.value, body.value.name, body.value.description);
      return NoContent;
    }

    /** PATCH .../{cityId}/pointsofinterest/{id}: the lookups come BEFORE any
        validation; the patch is applied to a copy, and only when the copy
        has no patch error, meets the annotations and has a description
        other than its name are its two fields written back. */
    method PartiallyUpdatePointOfInterest(cityId: Int32, id: Int32, patchDoc: Option<PatchDocument>) returns (r: Response)
      modifies store
      ensures patchDoc.None? ==> r == BadRequest({}) && store.cities == old(store.cities)
      ensures patchDoc.Some? && !Locate(old(store.cities), cityId, id).Found? ==> r == NotFound && store.cities == old(store.cities)
      ensures patchDoc.Some? && Locate(old(store.cities), cityId, id).Found? ==>
                var l := Locate(old(store.cities), cityId, id);
                var patched := ApplyTo(patchDoc.value, PatchBase(old(store.cities)[l.city].pointsOfInterest[l.item]));
                var errors := PatchValidationErrors(patched.document.name, patched.document.description);
                && (patched.errors != {} ==> r == BadRequest(patched.errors) && store.cities == old(store.cities))
                && (patched.errors == {} && errors != {} ==> r == BadRequest(errors) && store.cities == old(store.cities))
                && (patched.errors == {} && errors == {} ==>
                      r == NoContent
                      && store.cities == OverwriteFields(old(store.cities), l.city, l.item, patched.document.name, patched.document.description))
      ensures r != NoContent ==> store.cities == old(store.cities)
      ensures UniqueIds(old(store.cities)) ==> UniqueIds(store.cities)
    {
      if patchDoc.None? {
        return BadRequest({});
      }
      var city := FindCity(store.cities, cityId);
      if city.None? {
        return NotFound;
      }
      var item := FindPointOfInterest(store.cities[city.value].pointsOfInterest, id);
      if item.None? {
        return NotFound;
      }
      var toPatch := PatchBase(store.cities[city.value].pointsOfInterest[item.value]);
      var patched := ApplyTo(patchDoc.value, toPatch);
      if patched.errors != {} {
        return BadRequest(patched.errors);
      }
      var errors := PatchValidationErrors(patched.document.name, patched.document.description);
      if errors != {} {
        return BadRequest(errors);
      }
      if UniqueIds(store.cities) {
        OverwriteKeepsIdsUnique(store.cities, city.value, item.value, patched.document.name, patched.document.description);
      }
      store.cities := OverwriteFields(store.cities, city.value, item.value, patched.document.name, patched.document.description);
      return NoContent;
    }

    /** DELETE .../{cityId}/pointsofinterest/{id}: NotFound leaves the store
        and the mail log alone; otherwise exactly that item leaves its city's
        list, a notice naming it is sent, and (keys being unique) a later
        lookup of it answers NotFound. */
    method DeletePointOfInterest(cityId: Int32, id: Int32) returns (r: Response)
      modifies store, mailService
      ensures !Locate(old(store.cities), cityId, id).Found? ==>
                r == NotFound && store.cities == old(store.cities) && mailService.sent == old(mailService.sent)
      ensures Locate(old(store.cities), cityId, id).Found? ==>
                var l := Locate(old(store.cities), cityId, id);
                var item := old(store.cities)[l.city].pointsOfInterest[l.item];
                && r == NoContent
                && store.cities == RemovePointOfInterest(old(store.cities), l.city, l.item)
                && mailService.sent == old(mailService.sent) + [DeletionNotice(item.name, item.id)]
      ensures UniqueIds(old(store.cities)) ==> UniqueIds(store.cities)
      ensures UniqueIds(old(store.cities)) && r == NoContent ==> !Locate(store.cities, cityId, id).Found?
    {
      var city := FindCity(store.cities, cityId);
      if city.None? {
        return NotFound;
      }
      var item := FindPointOfInterest(store.cities[city.value].pointsOfInterest, id);
      if item.None? {
        return NotFound;
      }
      var removed := store.cities[city.value].pointsOfInterest[item.value];
      if UniqueIds(store.cities) {
        RemoveKeepsIdsUniqueAndForgets(store.cities, cityId, id);
      }
      store.cities := RemovePointOfInterest(store.cities, city.value, item.value);
      var notice := DeletionNotice(removed.name, removed.id);
      mailService.Send(notice.subject, notice.message);
      return NoContent;
    }
  }
}
