/** The repository the database-backed controller works through, over one
    unit of work of the database context. The PointsOfInterest table is a
    map from key to row; the rows as stored (`saved`) are kept apart from
    the same rows as this unit of work has changed them (`tracked`) and from
    the rows it has added, which have no key until the changes are saved and
    the identity column hands keys out. */
module Repository {
  import opened Primitives
  import opened Entities
  import opened Views

  /** A table of points of interest, by key. */
  type Table = map<Int32, PointOfInterest>

  /** Every row is stored under its own key, which is positive and below the
      identity column's next value, and names an existing city as its owner. */
  ghost predicate Keyed(t: Table, cityIds: set<Int32>, nextId: int) {
    forall k :: k in t ==> 0 < k < nextId && t[k].id == k && t[k].cityId in cityIds
  }

  /** The rows `added` as the identity column inserts them: the `i`-th one
      receives the key `next + i`. */
  function Inserted(added: seq<PointOfInterest>, next: int): (r: seq<PointOfInterest>)
    requires 0 < next && next + |added| <= MaxInt32 + 1
    ensures |r| == |added|
    ensures forall i :: 0 <= i < |added| ==> r[i] == added[i].(id := next + i)
  {
    seq(|added|, i requires 0 <= i < |added| => added[i].(id := next + i))
  }

  /** The table after inserting `added` with keys from `next` on. */
  function Insert(t: Table, added: seq<PointOfInterest>, next: int): (r: Table)
    requires 0 < next && next + |added| <= MaxInt32 + 1
    ensures t.Keys <= r.Keys
    decreases |added|
  {
    if added == [] then t
    else Insert(t[next := added[0].(id := next)], added[1..], next + 1)
  }

  /** Inserting keeps the rows already there as they are, stores each added
      row under the key it receives, and stores nothing else. */
  lemma {:induction false} InsertMeaning(t: Table, added: seq<PointOfInterest>, next: int)
    requires 0 < next && next + |added| <= MaxInt32 + 1
    requires forall k :: k in t ==> k < next
    ensures forall k :: k in t ==> k in Insert(t, added, next) && Insert(t, added, next)[k] == t[k]
    ensures forall k :: next <= k < next + |added| ==>
              k in Insert(t, added, next) && Insert(t, added, next)[k] == added[k - next].(id := k)
    ensures forall k :: k in Insert(t, added, next) ==> k in t || next <= k < next + |added|
    decreases |added|
  {
    if added != [] {
      var t' := t[next := added[0].(id := next)];
      InsertMeaning(t', added[1..], next + 1);
      assert Insert(t, added, next) == Insert(t', added[1..], next + 1);
      forall k | next <= k < next + |added|
        ensures k in Insert(t, added, next) && Insert(t, added, next)[k] == added[k - next].(id := k)
      {
        if k > next {
          assert added[1..][k - (next + 1)] == added[k - next];
        } else {
          assert next in t';
        }
      }
    }
  }

  class CityInfoRepository {
    /** The keys of the Cities table. */
    var cityIds: set<Int32>
    /** The PointsOfInterest table as the database holds it. */
    var saved: Table
    /** The same rows as this unit of work has changed or deleted them. */
    var tracked: Table
    /** Rows this unit of work has added, in the order they were added. */
    var added: seq<PointOfInterest>
    /** The identity column's next value. */
    var nextId: int

    ghost predicate Valid()
      reads this
    {
      && 0 < nextId <= MaxInt32 + 1
      && Keyed(saved, cityIds, nextId)
      && Keyed(tracked, cityIds, nextId)
      && forall j :: 0 <= j < |added| ==> added[j].id == Unassigned && added[j].cityId in cityIds
    }

    /** A unit of work that has changed nothing yet, as every request gets
        one (the context and the repository are scoped to the request). */
    ghost predicate Fresh()
      reads this
    {
      tracked == saved && added == []
    }

    constructor (cityIds: set<Int32>, saved: Table, nextId: int)
      requires 0 < nextId <= MaxInt32 + 1 && Keyed(saved, cityIds, nextId)
      ensures this.cityIds == cityIds && this.saved == saved && this.nextId == nextId
      ensures Valid() && Fresh()
    {
      this.cityIds := cityIds;
      this.saved := saved;
      this.tracked := saved;
      this.added := [];
      this.nextId := nextId;
    }

    /** A city exists exactly when the Cities table holds its key. */
    method CityExists(cityId: Int32) returns (b: bool)
      ensures b <==> cityId in cityIds
    {
      b := cityId in cityIds;
    }

    /** The stored rows owned by `cityId`, all of them and only them, in
        key order. */
    method GetPointsOfInterestForCity(cityId: Int32) returns (rows: seq<PointOfInterest>)
      requires forall k :: k in saved ==> saved[k].id == k
      ensures forall j :: 0 <= j < |rows| ==> rows[j].id in saved && saved[rows[j].id] == rows[j] && rows[j].cityId == cityId
      ensures forall k :: k in saved && saved[k].cityId == cityId ==> saved[k] in rows
      ensures forall i, j :: 0 <= i < j < |rows| ==> rows[i].id < rows[j].id
    {
      rows := [];
      var rest := saved.Keys;
      while rest != {}
        invariant rest <= saved.Keys
        invariant forall j :: 0 <= j < |rows| ==> rows[j].id in saved && saved[rows[j].id] == rows[j] && rows[j].cityId == cityId
        invariant forall k :: k in saved && k !in rest && saved[k].cityId == cityId ==> saved[k] in rows
        invariant forall j, k :: 0 <= j < |rows| && k in rest ==> rows[j].id < k
        invariant forall i, j :: 0 <= i < j < |rows| ==> rows[i].id < rows[j].id
        decreases |rest|
      {
        ghost var least := Least(rest);
        var k :| k in rest && forall x :: x in rest ==> k <= x;
        assert forall x :: x in rest - {k} ==> k < x;
        if saved[k].cityId == cityId {
          assert saved[k].id == k;
          rows := rows + [saved[k]];
        }
        rest := rest - {k};
      }
    }

    /** `FirstOrDefault` over the stored rows with both the owner and the
        key asked for; with keys being unique there is at most one. */
    function GetPointOfInterestForCity(cityId: Int32, id: Int32): (r: Option<PointOfInterest>)
      reads this
      ensures r.Some? <==> id in saved && saved[id].cityId == cityId
      ensures r.Some? ==> r.value == saved[id]
    {
      if id in saved && saved[id].cityId == cityId then Some(saved[id]) else None
    }

    /** `city.PointsOfInterest.Add(p)`: the row is added to this unit of
        work, owned by the city, and has no key until it is saved. */
    method AddPointOfInterestForCity(cityId: Int32, p: PointOfInterest)
      requires Valid() && cityId in cityIds && p.id == Unassigned
      modifies this
      ensures added == old(added) + [p.(cityId := cityId)]
      ensures cityIds == old(cityIds) && saved == old(saved) && tracked == old(tracked) && nextId == old(nextId)
      ensures Valid()
    {
      added := added + [p.(cityId := cityId)];
    }

    /** `Mapper.Map(view, entity)` on a row this unit of work tracks: its name
        and description change, its key and owner do not. */
    method MapOntoTracked(id: Int32, v: PointOfInterestForUpdateDto)
      requires Valid() && id in tracked
      modifies this
      ensures tracked == old(tracked)[id := MapOnto(v, old(tracked)[id])]
      ensures cityIds == old(cityIds) && saved == old(saved) && added == old(added) && nextId == old(nextId)
      ensures Valid()
    {
      tracked := tracked[id := MapOnto(v, tracked[id])];
    }

    /** `Remove(p)`: the row is deleted in this unit of work. */
    method DeletePointOfInterest(p: PointOfInterest)
      requires Valid() && p.id in tracked
      modifies this
      ensures tracked == old(tracked) - {p.id}
      ensures cityIds == old(cityIds) && saved == old(saved) && added == old(added) && nextId == old(nextId)
      ensures Valid()
    {
      tracked := tracked - {p.id};
    }

    /** `SaveChanges`: when the database accepts the changes (`fails` stands
        for it refusing them) and the identity column can key every added
        row, the tracked rows and the added rows, keyed in the order they were
        added, become the stored table and the unit of work starts afresh;
        `inserted` is the added rows with their keys. Otherwise nothing
        changes. */
    method Save(fails: bool) returns (ok: bool, inserted: seq<PointOfInterest>)
      requires Valid()
      modifies this
      ensures ok <==> !fails && old(nextId) + |old(added)| <= MaxInt32 + 1
      ensures !ok ==> inserted == [] && cityIds == old(cityIds) && saved == old(saved) && tracked == old(tracked)
                      && added == old(added) && nextId == old(nextId)
      ensures ok ==> && inserted == Inserted(old(added), old(nextId))
                     && saved == Insert(old(tracked), old(added), old(nextId))
                     && nextId == old(nextId) + |old(added)|
                     && cityIds == old(cityIds) && Fresh()
      ensures Valid()
    {
      if fails || nextId + |added| > MaxInt32 + 1 {
        return false, [];
      }
      inserted := Inserted(added, nextId);
      var t: Table := tracked;
      var i := 0;
      while i < |added|
        invariant 0 <= i <= |added|
        invariant forall k :: k in t ==> k < nextId + i
        invariant Insert(t, added[i..], nextId + i) == Insert(tracked, added, nextId)
        invariant Keyed(t, cityIds, nextId + i)
      {
        assert added[i..][1..] == added[i + 1..];
        t := t[nextId + i := added[i].(id := nextId + i)];
        i := i + 1;
      }
      assert added[i..] == [];
      InsertMeaning(tracked, added, nextId);
      saved := t;
      tracked := t;
      nextId := nextId + |added|;
      added := [];
      return true, inserted;
    }

    /** The end of a request: the unit of work is disposed of with whatever
        it did not save, and the next request starts from the stored table. */
    method EndRequest()
      requires Valid()
      modifies this
      ensures cityIds == old(cityIds) && saved == old(saved) && nextId == old(nextId)
      ensures Valid() && Fresh()
    {
      tracked := saved;
      added := [];
    }
  }

  /** The least key of a non-empty set. */
  ghost function Least(s: set<Int32>): (m: Int32)
    requires s != {}
    ensures m in s && forall k :: k in s ==> m <= k
    decreases |s|
  {
    var x :| x in s;
    assert forall k :: k in s ==> k in s - {x} || k == x;
    if s - {x} == {} then
      x
    else
      var m' := Least(s - {x});
      if x < m' then x else m'
  }
}
