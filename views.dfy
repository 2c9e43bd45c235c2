/** The transfer shapes the controllers exchange with clients (read view,
    creation view, update view), the hand-written field copies that stand in
    for the AutoMapper maps, the validation errors a request can collect, and
    the responses an action can give. */
module Views {
  import opened Primitives
  import opened Entities

  /** Read view: what a client sees of a point of interest. */
  datatype PointOfInterestDto = PointOfInterestDto(id: Int32, name: Text, description: Text)

  /** Creation view: carries no key; the store assigns it. */
  datatype PointOfInterestForCreationDto = PointOfInterestForCreationDto(name: Text, description: Text)

  /** Update view: the two fields a full update or a patch may change. */
  datatype PointOfInterestForUpdateDto = PointOfInterestForUpdateDto(name: Text, description: Text)

  datatype ValidationError =
    | NameRequired                      // [Required] on Name
    | NameTooLong                       // [MaxLength(50)] on Name
    | DescriptionTooLong                // [MaxLength(200)] on Description
    | DescriptionSameAsName             // the controllers' own cross-field rule
    | InvalidPatchOperation(path: string)  // a patch operation whose path names no member

  /** The errors the data annotations on a view's `Name` and `Description`
      put into the model state. */
  function AnnotationErrors(name: Text, description: Text): (r: set<ValidationError>)
    ensures NameRequired in r <==> !Required(name)
    ensures NameTooLong in r <==> !WithinMaxLength(name, NameMaxLength)
    ensures DescriptionTooLong in r <==> !WithinMaxLength(description, DescriptionMaxLength)
    ensures r <= {NameRequired, NameTooLong, DescriptionTooLong}
    ensures r == {} <==> ValidFields(name, description)
  {
    (if Required(name) then {} else {NameRequired})
    + (if WithinMaxLength(name, NameMaxLength) then {} else {NameTooLong})
    + (if WithinMaxLength(description, DescriptionMaxLength) then {} else {DescriptionTooLong})
  }

  /** Everything a request body can be refused for: the annotation errors and
      the rule that the description differs from the name, merged into one
      model state rather than stopping at the first. C#'s `==` on strings
      compares values, and two nulls are equal. */
  function ValidationErrors(name: Text, description: Text): (r: set<ValidationError>)
    ensures DescriptionSameAsName in r <==> description == name
    ensures AnnotationErrors(name, description) <= r
    ensures r == {} <==> ValidFields(name, description) && description != name
  {
    (if description == name then {DescriptionSameAsName} else {}) + AnnotationErrors(name, description)
  }

  /** The model state of the patch path, where the controller records the
      cross-field rule first and only then calls `TryValidateModel`. The
      validation visitor skips a member whose model-state entry is already
      invalid, so a description equal to the name is not also checked
      against `[MaxLength(200)]`. The verdict is the same as on the other
      paths; only the reported errors can differ. */
  function PatchValidationErrors(name: Text, description: Text): (r: set<ValidationError>)
    ensures DescriptionSameAsName in r <==> description == name
    ensures DescriptionTooLong in r <==> description != name && !WithinMaxLength(description, DescriptionMaxLength)
    ensures NameRequired in r <==> !Required(name)
    ensures NameTooLong in r <==> !WithinMaxLength(name, NameMaxLength)
    ensures r <= ValidationErrors(name, description)
    ensures r == {} <==> ValidationErrors(name, description) == {}
  {
    if description == name then ValidationErrors(name, description) - {DescriptionTooLong}
    else ValidationErrors(name, description)
  }

  /** Entity to read view: key, name and description, field by field. */
  function ToDto(p: PointOfInterest): (d: PointOfInterestDto)
    ensures d.id == p.id && d.name == p.name && d.description == p.description
  {
    PointOfInterestDto(p.id, p.name, p.description)
  }

  function ToDtos(s: seq<PointOfInterest>): (r: seq<PointOfInterestDto>)
    ensures |r| == |s| && forall j :: 0 <= j < |s| ==> r[j] == ToDto(s[j])
  {
    seq(|s|, j requires 0 <= j < |s| => ToDto(s[j]))
  }

  /** Creation view to entity: the key and the owner are left at their
      defaults for the store to fill in. */
  function FromCreationDto(v: PointOfInterestForCreationDto): (p: PointOfInterest)
    ensures p.id == Unassigned && p.cityId == 0
    ensures p.name == v.name && p.description == v.description
  {
    PointOfInterest(Unassigned, v.name, v.description, 0)
  }

  /** Entity to update view: the document a patch starts from. */
  function ToUpdateDto(p: PointOfInterest): (v: PointOfInterestForUpdateDto)
    ensures v.name == p.name && v.description == p.description
  {
    PointOfInterestForUpdateDto(p.name, p.description)
  }

  /** `Mapper.Map(view, entity)`: the view's two fields written onto the entity. */
  function MapOnto(v: PointOfInterestForUpdateDto, p: PointOfInterest): (r: PointOfInterest)
    ensures r.id == p.id && r.cityId == p.cityId
    ensures r.name == v.name && r.description == v.description
  {
    p.(name := v.name, description := v.description)
  }

  /** Writing back an unchanged copy changes nothing, and a written entity
      reads back as the view that was written. */
  lemma MapOntoRoundTrip(v: PointOfInterestForUpdateDto, p: PointOfInterest)
    ensures MapOnto(ToUpdateDto(p), p) == p
    ensures ToUpdateDto(MapOnto(v, p)) == v
  {
  }

  /** The route names the two single-item GET actions register. */
  const ItemRoute: string := "GetPointOfInterest"
  const InMemoryItemRoute: string := "GetPointOfInterestIM"

  const ProblemMessage: string := "A problem happened while handling your request."

  datatype Response =
    | Ok(pointsOfInterest: seq<PointOfInterestDto>)     // 200 with a list
    | OkItem(pointOfInterest: PointOfInterestDto)       // 200 with one item
    | CreatedAtRoute(routeName: string, cityId: Int32, id: Int32, created: PointOfInterestDto)  // 201 with a location
    | NoContent                                         // 204
    | BadRequest(errors: set<ValidationError>)          // 400 with the model state
    | NotFound                                          // 404
    | InternalServerError(message: string)              // 500 the action itself returns
    | UnhandledException                                // 500 from the exception-handling middleware
}
