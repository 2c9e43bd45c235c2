/** The sample data the application stores at start-up when the database
    holds no city yet. The context is the Cities table with each city's
    points of interest, as the model graph `City` holds them; saving inserts
    new graphs and lets the two identity columns key them. */
module Seeding {
  import opened Primitives
  import opened Entities

  /** How many records of `cities`, at either level, have no key yet. */
  function TotalPending(cities: seq<City>): nat {
    if cities == [] then 0 else PendingCount(cities[0].pointsOfInterest) + TotalPending(cities[1..])
  }

  /** What the identity columns do to city graphs being inserted: the `i`-th
      city receives the key `nextCity + i`, and its new points of interest
      receive keys from `nextPoint` on, in order (see `InsertCitiesAssigns`). */
  function InsertCities(added: seq<City>, nextCity: int, nextPoint: int): (r: (seq<City>, int, int))
    requires 0 < nextCity && nextCity + |added| <= MaxInt32 + 1
    requires 0 < nextPoint && nextPoint + TotalPending(added) <= MaxInt32 + 1
    ensures |r.0| == |added| && r.1 == nextCity + |added| && r.2 == nextPoint + TotalPending(added)
    ensures forall i :: 0 <= i < |added| ==>
              && r.0[i].id == nextCity + i
              && r.0[i].name == added[i].name && r.0[i].description == added[i].description
              && |r.0[i].pointsOfInterest| == |added[i].pointsOfInterest|
    decreases |added|
  {
    if added == [] then ([], nextCity, nextPoint)
    else
      var keyed := AssignIds(added[0].pointsOfInterest, nextPoint, nextCity);
      var rest := InsertCities(added[1..], nextCity + 1, keyed.1);
      var r := ([added[0].(id := nextCity, pointsOfInterest := keyed.0)] + rest.0, rest.1, rest.2);
      assert forall i :: 1 <= i < |added| ==> added[1..][i - 1] == added[i] && r.0[i] == rest.0[i - 1];
      r
  }

  /** Inserting city graphs keys the new points of interest of every city
      from `nextPoint` on, below the counter's final value, and makes each
      name the city that holds it. */
  lemma {:induction false} InsertCitiesAssigns(added: seq<City>, nextCity: int, nextPoint: int)
    requires 0 < nextCity && nextCity + |added| <= MaxInt32 + 1
    requires 0 < nextPoint && nextPoint + TotalPending(added) <= MaxInt32 + 1
    ensures var r := InsertCities(added, nextCity, nextPoint);
            forall i :: 0 <= i < |added| ==>
              IdentitiesAssigned(added[i].pointsOfInterest, r.0[i].pointsOfInterest, r.0[i].id, nextPoint, r.2)
    decreases |added|
  {
    if added != [] {
      var keyed := AssignIds(added[0].pointsOfInterest, nextPoint, nextCity);
      AssignIdsMeaning(added[0].pointsOfInterest, nextPoint, nextCity);
      InsertCitiesAssigns(added[1..], nextCity + 1, keyed.1);
      InsertCitiesFront(added, nextCity, nextPoint);
      var r := InsertCities(added, nextCity, nextPoint);
      assert forall i :: 1 <= i < |added| ==> added[1..][i - 1] == added[i];
      assert forall i :: 1 <= i < |added| ==>
        IdentitiesAssigned(added[i].pointsOfInterest, r.0[i].pointsOfInterest, r.0[i].id, keyed.1, r.2);
      IdentitiesWiden(added, r.0, nextPoint, keyed.1, r.2);
    }
  }

  /** One step of the insertion: the first city is keyed, its points of
      interest receive the first keys, and the rest are inserted after it. */
  lemma InsertCitiesFront(added: seq<City>, nextCity: int, nextPoint: int)
    requires added != []
    requires 0 < nextCity && nextCity + |added| <= MaxInt32 + 1
    requires 0 < nextPoint && nextPoint + TotalPending(added) <= MaxInt32 + 1
    ensures var keyed := AssignIds(added[0].pointsOfInterest, nextPoint, nextCity);
            var r := InsertCities(added, nextCity, nextPoint).0;
            var rest := InsertCities(added[1..], nextCity + 1, keyed.1).0;
            && r[0] == added[0].(id := nextCity, pointsOfInterest := keyed.0)
            && forall i :: 1 <= i < |added| ==> r[i] == rest[i - 1]
  {
  }

  /** Widening the range keys were drawn from keeps the assignment valid. */
  lemma IdentitiesWiden(before: seq<City>, after: seq<City>, lo: int, mid: int, hi: int)
    requires |after| == |before| && lo <= mid
    requires forall i :: 1 <= i < |before| ==>
               IdentitiesAssigned(before[i].pointsOfInterest, after[i].pointsOfInterest, after[i].id, mid, hi)
    ensures forall i :: 1 <= i < |before| ==>
              IdentitiesAssigned(before[i].pointsOfInterest, after[i].pointsOfInterest, after[i].id, lo, hi)
  {
  }

  /** The stored graphs are keyed: every city and every point of interest
      has a key below the next value of its identity column, and each point
      of interest names the city that holds it. */
  ghost predicate Stored(cities: seq<City>, nextCity: int, nextPoint: int) {
    forall i :: 0 <= i < |cities| ==>
      && 0 < cities[i].id < nextCity
      && forall p :: p in cities[i].pointsOfInterest ==> 0 < p.id < nextPoint && p.cityId == cities[i].id
  }

  /** Stored graphs stay stored when the identity columns move on, and
      graphs stored under the new values can join them. */
  lemma StoredAppend(before: seq<City>, added: seq<City>, nextCity: int, nextPoint: int, nextCity': int, nextPoint': int)
    requires Stored(before, nextCity, nextPoint) && nextCity <= nextCity' && nextPoint <= nextPoint'
    requires Stored(added, nextCity', nextPoint')
    ensures Stored(before + added, nextCity', nextPoint')
  {
    assert forall i :: 0 <= i < |before + added| ==>
      (before + added)[i] == if i < |before| then before[i] else added[i - |before|];
  }

  class CityInfoContext {
    /** The Cities table, each city with its points of interest. */
    var cities: seq<City>
    var nextCityId: int
    var nextPointOfInterestId: int

    ghost predicate Valid()
      reads this
    {
      && 0 < nextCityId <= MaxInt32 + 1
      && 0 < nextPointOfInterestId <= MaxInt32 + 1
      && Stored(cities, nextCityId, nextPointOfInterestId)
    }

    /** A database created by the migrations: empty tables, identity
        columns starting at 1. */
    constructor ()
      ensures cities == [] && nextCityId == 1 && nextPointOfInterestId == 1
      ensures Valid()
    {
      cities := [];
      nextCityId := 1;
      nextPointOfInterestId := 1;
    }

    /** `Cities.AddRange(added)` followed by `SaveChanges()`: when the
        database accepts the insert (`fails` stands for it refusing it) and
        both identity columns can key every new record, the keyed graphs are
        stored after the existing cities; otherwise nothing is stored. */
    method AddRangeAndSave(added: seq<City>, fails: bool) returns (ok: bool)
      requires Valid()
      requires forall i :: 0 <= i < |added| ==> added[i].id == Unassigned
      requires forall i, j :: 0 <= i < |added| && 0 <= j < |added[i].pointsOfInterest| ==>
                 added[i].pointsOfInterest[j].id == Unassigned
      modifies this
      ensures ok <==> !fails && old(nextCityId) + |added| <= MaxInt32 + 1
                      && old(nextPointOfInterestId) + TotalPending(added) <= MaxInt32 + 1
      ensures !ok ==> unchanged(this)
      ensures ok ==> var r := InsertCities(added, old(nextCityId), old(nextPointOfInterestId));
                     cities == old(cities) + r.0 && nextCityId == r.1 && nextPointOfInterestId == r.2
      ensures Valid()
    {
      if fails || nextCityId + |added| > MaxInt32 + 1 || nextPointOfInterestId + TotalPending(added) > MaxInt32 + 1 {
        return false;
      }
      var r := InsertCities(added, nextCityId, nextPointOfInterestId);
      InsertCitiesAssigns(added, nextCityId, nextPointOfInterestId);
      forall i | 0 <= i < |r.0|
        ensures forall p :: p in r.0[i].pointsOfInterest ==> 0 < p.id < r.2 && p.cityId == r.0[i].id
      {
        forall p | p in r.0[i].pointsOfInterest
          ensures 0 < p.id < r.2 && p.cityId == r.0[i].id
        {
          var j :| 0 <= j < |r.0[i].pointsOfInterest| && r.0[i].pointsOfInterest[j] == p;
          assert IdentityAssigned(added[i].pointsOfInterest[j], p, r.0[i].id, nextPointOfInterestId, r.2);
        }
      }
      StoredAppend(cities, r.0, nextCityId, nextPointOfInterestId, r.1, r.2);
      cities := cities + r.0;
      nextCityId := r.1;
      nextPointOfInterestId := r.2;
      return true;
    }
  }

  /** `new PointOfInterest() { Name = ..., Description = ... }`. */
  function NewPoint(name: string, description: string): (p: PointOfInterest)
    ensures p.id == Unassigned && p.cityId == Unassigned
    ensures p.name == Some(name) && p.description == Some(description)
  {
    PointOfInterest(Unassigned, Some(name), Some(description), Unassigned)
  }

  /** `new City() { Name = ..., Description = ..., PointsOfInterest = ... }`. */
  function NewCityWith(name: string, description: string, points: seq<PointOfInterest>): (c: City)
    ensures c.id == Unassigned && c.name == Some(name) && c.description == Some(description)
    ensures c.pointsOfInterest == points
  {
    City(Unassigned, Some(name), Some(description), points)
  }

  const NewYorkCity: string := "New York City"
  const NewYorkCityDescription: string := "The one with that big park."
  const CentralPark: string := "Central Park"
  const CentralParkDescription: string := "The most visited urban park in the United States."
  const EmpireStateBuilding: string := "Empire State Building"
  const EmpireStateBuildingDescription: string := "A 102-story skyscraper located in Midtown Manhatten."
  const Antwerp: string := "Antwerp"
  const AntwerpDescription: string := "The one with the cathedral that was never really finished."
  const CathedralOfOurLady: string := "Cathedral of Our Lady"
  const CathedralOfOurLadyDescription: string := "A Gothic style cathedral, conceived by architects Jan and Pieter Appelmans."
  const AntwerpCentralStation: string := "Antwerp Central Station"
  const AntwerpCentralStationDescription: string := "The finest example of railway architecture in Belgium."
  const Paris: string := "Paris"
  const ParisDescription: string := "The one with that big tower."
  const EiffelTower: string := "Eiffel Tower"
  const EiffelTowerDescription: string := "A wrought iron lattice tower on the Champ de Mars, named after engineer Gustave Eiffel."
  const TheLouvre: string := "The Louvre"
  const TheLouvreDescription: string := "The world's largest museum."

  /** The sample cities, each with two points of interest, as the routine
      builds them. */
  function SeedCities(): (r: seq<City>)
    ensures |r| == 3
    ensures forall i :: 0 <= i < 3 ==> r[i].id == Unassigned && |r[i].pointsOfInterest| == 2
  {
    [ NewCityWith(NewYorkCity, NewYorkCityDescription,
        [ NewPoint(CentralPark, CentralParkDescription),
          NewPoint(EmpireStateBuilding, EmpireStateBuildingDescription) ]),
      NewCityWith(Antwerp, AntwerpDescription,
        [ NewPoint(CathedralOfOurLady, CathedralOfOurLadyDescription),
          NewPoint(AntwerpCentralStation, AntwerpCentralStationDescription) ]),
      NewCityWith(Paris, ParisDescription,
        [ NewPoint(EiffelTower, EiffelTowerDescription),
          NewPoint(TheLouvre, TheLouvreDescription) ]) ]
  }

  /** A sample point of interest: no key or owner yet, meeting its
      constraints and the controllers' rule that a description differs from
      its name. */
  ghost predicate SamplePoint(p: PointOfInterest) {
    p.id == Unassigned && p.cityId == Unassigned && ValidPointOfInterest(p) && p.description != p.name
  }

  /** A sample city: no key yet, meeting its constraints, holding two
      sample points of interest. */
  ghost predicate SampleCity(c: City) {
    && c.id == Unassigned && ValidFields(c.name, c.description)
    && TwoNewPoints(c)
    && forall j :: 0 <= j < 2 ==> SamplePoint(c.pointsOfInterest[j])
  }

  /** A city holding exactly two points of interest, neither inserted yet. */
  ghost predicate TwoNewPoints(c: City) {
    |c.pointsOfInterest| == 2 && forall j :: 0 <= j < 2 ==> c.pointsOfInterest[j].id == Unassigned
  }

  /** Fields whose name starts with a non-white-space character and whose
      texts are short enough even if every character took two UTF-16 code
      units meet the constraints. */
  lemma FieldsFit(name: string, description: string)
    requires |name| > 0 && !IsWhiteSpace(name[0])
    requires 2 * |name| <= NameMaxLength && 2 * |description| <= DescriptionMaxLength
    ensures ValidFields(Some(name), Some(description))
  {
  }

  /** The sample data are three sample cities: New York City, Antwerp and
      Paris, in that order. */
  lemma SeedCitiesAreSamples()
    ensures |SeedCities()| == 3
    ensures SeedCities()[0].name == Some(NewYorkCity)
    ensures SeedCities()[1].name == Some(Antwerp)
    ensures SeedCities()[2].name == Some(Paris)
    ensures forall i :: 0 <= i < 3 ==> SampleCity(SeedCities()[i])
  {
    var s := SeedCities();
    SampleCityOf(NewYorkCity, NewYorkCityDescription, CentralPark, CentralParkDescription,
      EmpireStateBuilding, EmpireStateBuildingDescription);
    SampleCityOf(Antwerp, AntwerpDescription, CathedralOfOurLady, CathedralOfOurLadyDescription,
      AntwerpCentralStation, AntwerpCentralStationDescription);
    SampleCityOf(Paris, ParisDescription, EiffelTower, EiffelTowerDescription,
      TheLouvre, TheLouvreDescription);
  }

  /** A city built from fitting texts, with two points of interest whose
      descriptions differ from their names, is a sample city. */
  lemma SampleCityOf(name: string, description: string, first: string, firstDescription: string,
                     second: string, secondDescription: string)
    requires |name| > 0 && !IsWhiteSpace(name[0]) && 2 * |name| <= NameMaxLength && 2 * |description| <= DescriptionMaxLength
    requires |first| > 0 && !IsWhiteSpace(first[0]) && 2 * |first| <= NameMaxLength && 2 * |firstDescription| <= DescriptionMaxLength
    requires |second| > 0 && !IsWhiteSpace(second[0]) && 2 * |second| <= NameMaxLength && 2 * |secondDescription| <= DescriptionMaxLength
    requires first != firstDescription && second != secondDescription
    ensures SampleCity(NewCityWith(name, description, [NewPoint(first, firstDescription), NewPoint(second, secondDescription)]))
  {
    FieldsFit(name, description);
    FieldsFit(first, firstDescription);
    FieldsFit(second, secondDescription);
  }

  /** Sample cities hold two new records each. */
  lemma {:induction false} SamplesPending(s: seq<City>)
    requires forall i :: 0 <= i < |s| ==> TwoNewPoints(s[i])
    ensures TotalPending(s) == 2 * |s|
    decreases |s|
  {
    if s != [] {
      SampleCityKeys(s[0], 1, 1);
      SamplesPending(s[1..]);
    }
  }

  /** The two points of interest of a sample city receive the next two keys. */
  lemma SampleCityKeys(c: City, nextCity: Int32, nextPoint: int)
    requires TwoNewPoints(c) && 0 < nextPoint && nextPoint + 2 <= MaxInt32 + 1
    ensures PendingCount(c.pointsOfInterest) == 2
    ensures var keyed := AssignIds(c.pointsOfInterest, nextPoint, nextCity);
            keyed.1 == nextPoint + 2 && keyed.0[0].id == nextPoint && keyed.0[1].id == nextPoint + 1
  {
    var pois := c.pointsOfInterest;
    assert pois[1..][0] == pois[1] && pois[1..][1..] == [];
    assert PendingCount(pois[1..]) == 1;
  }

  /** Inserting sample cities keys their points of interest consecutively,
      two per city, in the order of the cities. */
  lemma {:induction false} SampleKeys(s: seq<City>, nextCity: int, nextPoint: int)
    requires forall i :: 0 <= i < |s| ==> TwoNewPoints(s[i])
    requires 0 < nextCity && nextCity + |s| <= MaxInt32 + 1
    requires 0 < nextPoint && nextPoint + 2 * |s| <= MaxInt32 + 1
    ensures (SamplesPending(s);
             var r := InsertCities(s, nextCity, nextPoint).0;
             forall i, j :: 0 <= i < |s| && 0 <= j < 2 ==> r[i].pointsOfInterest[j].id == nextPoint + 2 * i + j)
    decreases |s|
  {
    SamplesPending(s);
    if s != [] {
      SamplesPending(s[1..]);
      var keyed := AssignIds(s[0].pointsOfInterest, nextPoint, nextCity);
      SampleCityKeys(s[0], nextCity, nextPoint);
      SampleKeys(s[1..], nextCity + 1, nextPoint + 2);
      InsertCitiesFront(s, nextCity, nextPoint);
      var r := InsertCities(s, nextCity, nextPoint).0;
      var rest := InsertCities(s[1..], nextCity + 1, nextPoint + 2).0;
      forall i, j | 0 <= i < |s| && 0 <= j < 2
        ensures r[i].pointsOfInterest[j].id == nextPoint + 2 * i + j
      {
        if i > 0 {
          assert r[i] == rest[i - 1];
        }
      }
    }
  }

  /** Inserting a sample city yields a stored city that meets its
      constraints and owns its two points of interest. */
  lemma InsertedSampleIsValid(before: City, after: City, lo: int, hi: int)
    requires SampleCity(before) && after.name == before.name && after.description == before.description
    requires IdentitiesAssigned(before.pointsOfInterest, after.pointsOfInterest, after.id, lo, hi)
    ensures ValidCity(after) && NumberOfPointsOfInterest(after) == 2
  {
    forall p | p in after.pointsOfInterest
      ensures ValidPointOfInterest(p) && p.cityId == after.id
    {
      var j :| 0 <= j < 2 && after.pointsOfInterest[j] == p;
      assert IdentityAssigned(before.pointsOfInterest[j], p, after.id, lo, hi);
    }
  }

  /** After the sample graphs are inserted, the three stored cities keep
      their names and order, each meets its constraints and holds its two
      points of interest, and the six points of interest are keyed in order. */
  lemma SeededCitiesAreValid(nextCity: int, nextPoint: int)
    requires 0 < nextCity && nextCity + 3 <= MaxInt32 + 1
    requires 0 < nextPoint && nextPoint + 6 <= MaxInt32 + 1
    ensures (SeedCitiesAreSamples(); SamplesPending(SeedCities());
             var r := InsertCities(SeedCities(), nextCity, nextPoint).0;
             && |r| == 3
             && r[0].name == Some(NewYorkCity) && r[1].name == Some(Antwerp) && r[2].name == Some(Paris)
             && (forall i :: 0 <= i < 3 ==> r[i].id == nextCity + i && ValidCity(r[i]) && NumberOfPointsOfInterest(r[i]) == 2)
             && (forall i, j :: 0 <= i < 3 && 0 <= j < 2 ==> r[i].pointsOfInterest[j].id == nextPoint + 2 * i + j))
  {
    SeedCitiesAreSamples();
    SamplesPending(SeedCities());
    var s := SeedCities();
    var r := InsertCities(s, nextCity, nextPoint);
    InsertCitiesAssigns(s, nextCity, nextPoint);
    forall i | 0 <= i < 3
      ensures ValidCity(r.0[i]) && NumberOfPointsOfInterest(r.0[i]) == 2
    {
      InsertedSampleIsValid(s[i], r.0[i], nextPoint, r.2);
    }
    SampleKeys(s, nextCity, nextPoint);
  }

  /** `EnsureSeedDataForContext`: a database that holds any city is left
      alone; an empty one receives the three sample cities with their six
      points of interest, keyed in order, when the insert is saved, and
      stays empty when it is not. */
  method EnsureSeedDataForContext(context: CityInfoContext, saveFails: bool)
    requires context.Valid()
    modifies context
    ensures context.Valid()
    ensures old(context.cities) != [] ==> unchanged(context)
    ensures old(context.cities) == [] && (saveFails || old(context.nextCityId) + 3 > MaxInt32 + 1
                                          || old(context.nextPointOfInterestId) + 6 > MaxInt32 + 1) ==>
              unchanged(context)
    ensures old(context.cities) == [] && !saveFails
            && old(context.nextCityId) + 3 <= MaxInt32 + 1 && old(context.nextPointOfInterestId) + 6 <= MaxInt32 + 1 ==>
              (SeedCitiesAreSamples(); SamplesPending(SeedCities());
               && context.cities == InsertCities(SeedCities(), old(context.nextCityId), old(context.nextPointOfInterestId)).0
               && context.nextCityId == old(context.nextCityId) + 3
               && context.nextPointOfInterestId == old(context.nextPointOfInterestId) + 6)
  {
    if context.cities != [] {
      return;
    }
    SeedCitiesAreSamples();
    SamplesPending(SeedCities());
    var cities := SeedCities();
    var ok := context.AddRangeAndSave(cities, saveFails);
  }

  /** Seeding is idempotent: once the sample cities are stored, running the
      routine again, whatever the database does, changes nothing. */
  method SeedTwice(context: CityInfoContext, firstFails: bool, secondFails: bool)
    requires context.Valid()
    modifies context
    ensures context.Valid()
    ensures old(context.cities) == [] && !firstFails
            && old(context.nextCityId) + 3 <= MaxInt32 + 1 && old(context.nextPointOfInterestId) + 6 <= MaxInt32 + 1 ==>
              (SeedCitiesAreSamples(); SamplesPending(SeedCities());
               && context.cities == InsertCities(SeedCities(), old(context.nextCityId), old(context.nextPointOfInterestId)).0
               && context.nextCityId == old(context.nextCityId) + 3
               && context.nextPointOfInterestId == old(context.nextPointOfInterestId) + 6)
  {
    EnsureSeedDataForContext(context, firstFails);
    EnsureSeedDataForContext(context, secondFails);
  }
}
