/** The persisted records `City` and `PointOfInterest`, their declarative
    constraints (`[Required]`, `[MaxLength]`), the derived count of a city's
    points of interest, and what the database's identity columns
    (`[DatabaseGenerated(Identity)]`) do to records that are inserted. */
module Entities {
  import opened Primitives

  /** A .NET `string` reference; None stands for null. */
  type Text = Option<string>

  const NameMaxLength: nat := 50
  const DescriptionMaxLength: nat := 200

  /** The key of a record the database has not inserted yet: C#'s default `int`. */
  const Unassigned: Int32 := 0

  /** The characters `char.IsWhiteSpace` accepts: the Unicode space,
      line and paragraph separators and the controls U+0009..U+000D, U+0085. */
  predicate IsWhiteSpace(c: char) {
    || c == ' ' || ('\t' <= c <= '\r') || c == '\U{85}' || c == '\U{A0}' || c == '\U{1680}'
    || ('\U{2000}' <= c <= '\U{200A}') || c == '\U{2028}' || c == '\U{2029}'
    || c == '\U{202F}' || c == '\U{205F}' || c == '\U{3000}'
  }

  /** `[Required]` on a string: not null and, since empty strings are not
      allowed by default, holding at least one non-white-space character. */
  predicate Required(t: Text) {
    t.Some? && exists k :: 0 <= k < |t.value| && !IsWhiteSpace(t.value[k])
  }

  /** `[MaxLength(n)]` on a string: null passes; otherwise its `Length`,
      counted in UTF-16 code units, is at most `n`. */
  predicate WithinMaxLength(t: Text, n: nat) {
    t.None? || Utf16Length(t.value) <= n
  }

  /** The constraints both records put on their `Name` and `Description`. */
  predicate ValidFields(name: Text, description: Text) {
    Required(name) && WithinMaxLength(name, NameMaxLength) && WithinMaxLength(description, DescriptionMaxLength)
  }

  datatype PointOfInterest = PointOfInterest(id: Int32, name: Text, description: Text, cityId: Int32)

  datatype City = City(id: Int32, name: Text, description: Text, pointsOfInterest: seq<PointOfInterest>)

  predicate ValidPointOfInterest(p: PointOfInterest) {
    ValidFields(p.name, p.description)
  }

  /** A city meets its own constraints, so does each of its points of
      interest, and each of them names this city as its owner. */
  predicate ValidCity(c: City) {
    && ValidFields(c.name, c.description)
    && forall p :: p in c.pointsOfInterest ==> ValidPointOfInterest(p) && p.cityId == c.id
  }

  /** `NumberOfPointsOfInterest => PointsOfInterest.Count`. */
  function NumberOfPointsOfInterest(c: City): (n: nat)
    ensures n == 0 <==> c.pointsOfInterest == []
  {
    |c.pointsOfInterest|
  }

  /** `new City()`: no key yet, null strings, and the default empty list. */
  function NewCity(): (c: City)
    ensures c.id == Unassigned && c.name.None? && c.description.None?
    ensures NumberOfPointsOfInterest(c) == 0
  {
    City(Unassigned, None, None, [])
  }

  /** How many records of `s` the database has not inserted yet. */
  function PendingCount(s: seq<PointOfInterest>): (n: nat)
    ensures n <= |s|
    ensures n == 0 <==> forall j :: 0 <= j < |s| ==> s[j].id != Unassigned
  {
    if s == [] then 0 else (if s[0].id == Unassigned then 1 else 0) + PendingCount(s[1..])
  }

  /** What inserting a record does to it: a record that already has a key
      keeps it unchanged; a new one (key 0) receives a key in [lo, hi) and
      its `CityId` is fixed up to the city whose list holds it. */
  ghost predicate IdentityAssigned(before: PointOfInterest, after: PointOfInterest, owner: Int32, lo: int, hi: int) {
    if before.id != Unassigned then after == before
    else lo <= after.id < hi && after == before.(id := after.id, cityId := owner)
  }

  ghost predicate IdentitiesAssigned(before: seq<PointOfInterest>, after: seq<PointOfInterest>, owner: Int32, lo: int, hi: int) {
    |after| == |before| && forall j :: 0 <= j < |before| ==> IdentityAssigned(before[j], after[j], owner, lo, hi)
  }

  /** The identity column on insert: the new records of one city's list
      receive the keys `next`, `next + 1`, ... in list order. */
  function AssignIds(s: seq<PointOfInterest>, next: int, owner: Int32): (r: (seq<PointOfInterest>, int))
    requires 0 < next && next + PendingCount(s) <= MaxInt32 + 1
    ensures |r.0| == |s| && r.1 == next + PendingCount(s)
    decreases |s|
  {
    if s == [] then ([], next)
    else if s[0].id == Unassigned then
      var rest := AssignIds(s[1..], next + 1, owner);
      ([s[0].(id := next, cityId := owner)] + rest.0, rest.1)
    else
      var rest := AssignIds(s[1..], next, owner);
      ([s[0]] + rest.0, rest.1)
  }

  /** Every new record receives a key from the range handed out and names
      its owner, records that had keys are kept, and the new records' keys
      increase in list order. */
  lemma {:induction false} AssignIdsMeaning(s: seq<PointOfInterest>, next: int, owner: Int32)
    requires 0 < next && next + PendingCount(s) <= MaxInt32 + 1
    ensures var r := AssignIds(s, next, owner);
            IdentitiesAssigned(s, r.0, owner, next, r.1)
    ensures var r := AssignIds(s, next, owner);
            forall j, k :: 0 <= j < k < |s| && s[j].id == Unassigned && s[k].id == Unassigned ==> r.0[j].id < r.0[k].id
    decreases |s|
  {
    if s != [] {
      var r := AssignIds(s, next, owner);
      var next' := if s[0].id == Unassigned then next + 1 else next;
      var rest := AssignIds(s[1..], next', owner);
      AssignIdsMeaning(s[1..], next', owner);
      assert r.0 == [if s[0].id == Unassigned then s[0].(id := next, cityId := owner) else s[0]] + rest.0;
      assert forall j :: 1 <= j < |s| ==> s[1..][j - 1] == s[j] && r.0[j] == rest.0[j - 1];
      assert IdentityAssigned(s[0], r.0[0], owner, next, r.1);
    }
  }
}
