/** The points-of-interest endpoints over the database, through the
    repository. Each action runs in a request of its own, so it starts from a
    unit of work that has changed nothing; whatever a refused action left in
    its unit of work is disposed of with the request. */
module PointsOfInterest {
  import opened Primitives
  import opened Entities
  import opened Views
  import opened JsonPatch
  import opened Mail
  import opened Repository

  class PointsOfInterestController {
    const repository: CityInfoRepository
    const mailService: MailService

    constructor (repository: CityInfoRepository, mailService: MailService)
      ensures this.repository == repository && this.mailService == mailService
    {
      this.repository := repository;
      this.mailService := mailService;
    }

    /** GET .../{cityId}/pointsofinterest: NotFound for a city the table does
        not hold, otherwise exactly the city's stored rows as read views, in
        key order. A failure of the database while reading (`readFails`) is
        caught and answered with the generic 500 message. */
    method GetPointsOfInterest(cityId: Int32, readFails: bool) returns (r: Response)
      requires repository.Valid()
      ensures readFails ==> r == InternalServerError(ProblemMessage)
      ensures !readFails && cityId !in repository.cityIds ==> r == NotFound
      ensures !readFails && cityId in repository.cityIds ==>
                && r.Ok?
                && (forall j :: 0 <= j < |r.pointsOfInterest| ==>
                      var k := r.pointsOfInterest[j].id;
                      k in repository.saved && repository.saved[k].cityId == cityId
                      && r.pointsOfInterest[j] == ToDto(repository.saved[k]))
                && (forall k :: k in repository.saved && repository.saved[k].cityId == cityId ==>
                      ToDto(repository.saved[k]) in r.pointsOfInterest)
                && (forall i, j :: 0 <= i < j < |r.pointsOfInterest| ==> r.pointsOfInterest[i].id < r.pointsOfInterest[j].id)
    {
      if readFails {
        return InternalServerError(ProblemMessage);
      }
      var cityExists := repository.CityExists(cityId);
      if !cityExists {
        return NotFound;
      }
      var rows := repository.GetPointsOfInterestForCity(cityId);
      var results := ToDtos(rows);
      forall k | k in repository.saved && repository.saved[k].cityId == cityId
        ensures ToDto(repository.saved[k]) in results
      {
        var j :| 0 <= j < |rows| && rows[j] == repository.saved[k];
        assert results[j] == ToDto(repository.saved[k]);
      }
      return Ok(results);
    }

    /** GET .../{cityId}/pointsofinterest/{id}: NotFound unless the city
        exists and holds a row with the key; otherwise the row's read view. */
    method GetPointOfInterest(cityId: Int32, id: Int32) returns (r: Response)
      requires repository.Valid()
      ensures r == NotFound <==> cityId !in repository.cityIds || repository.GetPointOfInterestForCity(cityId, id).None?
      ensures r != NotFound ==> id in repository.saved && r == OkItem(ToDto(repository.saved[id])) && r.pointOfInterest.id == id
    {
      var cityExists := repository.CityExists(cityId);
      if !cityExists {
        return NotFound;
      }
      var entity := repository.GetPointOfInterestForCity(cityId, id);
      if entity.None? {
        return NotFound;
      }
      return OkItem(ToDto(entity.value));
    }

    /** POST .../{cityId}/pointsofinterest: refused, with nothing stored, for a
        missing or invalid body (checked before the city) and for an unknown
        city; when the save fails, 500 and the table as it was; otherwise the
        table gains exactly one row, the body's fields under a key no row had,
        owned by the city, which a later GET finds. */
    method CreatePointOfInterest(cityId: Int32, body: Option<PointOfInterestForCreationDto>, saveFails: bool) returns (r: Response)
      requires repository.Valid() && repository.Fresh()
      modifies repository
      ensures repository.Valid() && repository.cityIds == old(repository.cityIds)
      ensures body.None? ==> r == BadRequest({}) && unchanged(repository)
      ensures body.Some? && ValidationErrors(body.value.name, body.value.description) != {} ==>
                r == BadRequest(ValidationErrors(body.value.name, body.value.description)) && unchanged(repository)
      ensures body.Some? && ValidationErrors(body.value.name, body.value.description) == {} && cityId !in old(repository.cityIds) ==>
                r == NotFound && unchanged(repository)
      ensures body.Some? && ValidationErrors(body.value.name, body.value.description) == {} && cityId in old(repository.cityIds) ==>
                r.CreatedAtRoute? || r == InternalServerError(ProblemMessage)
      ensures r.InternalServerError? ==>
                && r.message == ProblemMessage && repository.saved == old(repository.saved)
                && repository.added == [PointOfInterest(Unassigned, body.value.name, body.value.description, cityId)]
                && repository.tracked == old(repository.saved) && repository.nextId == old(repository.nextId)
      ensures r.CreatedAtRoute? <==>
                && body.Some? && ValidationErrors(body.value.name, body.value.description) == {}
                && cityId in old(repository.cityIds) && !saveFails && old(repository.nextId) <= MaxInt32
      ensures r.CreatedAtRoute? ==>
                && r.routeName == ItemRoute && r.cityId == cityId
                && r.id == old(repository.nextId) && r.id !in old(repository.saved)
                && r.created == PointOfInterestDto(r.id, body.value.name, body.value.description)
                && repository.saved == old(repository.saved)[r.id := PointOfInterest(r.id, body.value.name, body.value.description, cityId)]
                && repository.GetPointOfInterestForCity(cityId, r.id) == Some(PointOfInterest(r.id, body.value.name, body.value.description, cityId))
                && repository.nextId == old(repository.nextId) + 1 && repository.Fresh()
    {
      if body.None? {
        return BadRequest({});
      }
      var errors := ValidationErrors(body.value.name, body.value.description);
      if errors != {} {
        return BadRequest(errors);
      }
      var cityExists := repository.CityExists(cityId);
      if !cityExists {
        return NotFound;
      }
      var entity := FromCreationDto(body.value);
      repository.AddPointOfInterestForCity(cityId, entity);
      ghost var before := repository.tracked;
      var ok, inserted := repository.Save(saveFails);
      if !ok {
        return InternalServerError(ProblemMessage);
      }
      InsertOne(before, entity.(cityId := cityId), old(repository.nextId));
      var created := ToDto(inserted[0]);
      return CreatedAtRoute(ItemRoute, cityId, created.id, created);
    }

    /** PUT .../{cityId}/pointsofinterest/{id}: the body is checked before the
        lookups; a found row gets the body's name and description, keeping
        its key and owner, once the save succeeds. */
    method UpdatePointOfInterest(cityId: Int32, id: Int32, body: Option<PointOfInterestForUpdateDto>, saveFails: bool) returns (r: Response)
      requires repository.Valid() && repository.Fresh()
      modifies repository
      ensures repository.Valid() && repository.cityIds == old(repository.cityIds)
      ensures body.None? ==> r == BadRequest({}) && unchanged(repository)
      ensures body.Some? && ValidationErrors(body.value.name, body.value.description) != {} ==>
                r == BadRequest(ValidationErrors(body.value.name, body.value.description)) && unchanged(repository)
      ensures body.Some? && ValidationErrors(body.value.name, body.value.description) == {}
              && (cityId !in old(repository.cityIds) || old(repository.GetPointOfInterestForCity(cityId, id)).None?) ==>
                r == NotFound && unchanged(repository)
      ensures body.Some? && ValidationErrors(body.value.name, body.value.description) == {}
              && cityId in old(repository.cityIds) && old(repository.GetPointOfInterestForCity(cityId, id)).Some? ==>
                && (saveFails ==> r == InternalServerError(ProblemMessage) && repository.saved == old(repository.saved)
                                  && repository.tracked == old(repository.saved)[id := MapOnto(body.value, old(repository.saved)[id])])
                && (!saveFails ==>
                      r == NoContent && repository.saved == old(repository.saved)[id := MapOnto(body.value, old(repository.saved)[id])])
      ensures repository.nextId == old(repository.nextId) && repository.added == []
      ensures r == NoContent ==> repository.Fresh()
    {
      if body.None? {
        return BadRequest({});
      }
      var errors := ValidationErrors(body.value.name, body.value.description);
      if errors != {} {
        return BadRequest(errors);
      }
      var cityExists := repository.CityExists(cityId);
      if !cityExists {
        return NotFound;
      }
      var entity := repository.GetPointOfInterestForCity(cityId, id);
      if entity.None? {
        return NotFound;
      }
      repository.MapOntoTracked(id, body.value);
      ghost var before := repository.tracked;
      var ok, _ := repository.Save(saveFails);
      if !ok {
        return InternalServerError(ProblemMessage);
      }
      InsertNone(before, repository.nextId);
      return NoContent;
    }

    /** PATCH .../{cityId}/pointsofinterest/{id}: the lookups come before any
        validation; the patch is applied to the row's update view, and only a
        copy without patch errors that meets the annotations and has a
        description other than its name is written onto the row and saved. */
    method PartiallyUpdatePointOfInterest(cityId: Int32, id: Int32, patchDoc: Option<PatchDocument>, saveFails: bool) returns (r: Response)
      requires repository.Valid() && repository.Fresh()
      modifies repository
      ensures repository.Valid() && repository.cityIds == old(repository.cityIds)
      ensures patchDoc.None? ==> r == BadRequest({}) && unchanged(repository)
      ensures patchDoc.Some? && (cityId !in old(repository.cityIds) || old(repository.GetPointOfInterestForCity(cityId, id)).None?) ==>
                r == NotFound && unchanged(repository)
      ensures patchDoc.Some? && cityId in old(repository.cityIds) && old(repository.GetPointOfInterestForCity(cityId, id)).Some? ==>
                var entity := old(repository.saved)[id];
                var patched := ApplyTo(patchDoc.value, ToUpdateDto(entity));
                var errors := PatchValidationErrors(patched.document.name, patched.document.description);
                && (patched.errors != {} ==> r == BadRequest(patched.errors) && unchanged(repository))
                && (patched.errors == {} && errors != {} ==> r == BadRequest(errors) && unchanged(repository))
                && (patched.errors == {} && errors == {} && saveFails ==>
                      r == InternalServerError(ProblemMessage) && repository.saved == old(repository.saved)
                      && repository.tracked == old(repository.saved)[id := MapOnto(patched.document, entity)])
                && (patched.errors == {} && errors == {} && !saveFails ==>
                      r == NoContent && repository.saved == old(repository.saved)[id := MapOnto(patched.document, entity)])
      ensures repository.nextId == old(repository.nextId) && repository.added == []
      ensures r == NoContent ==> repository.Fresh()
    {
      if patchDoc.None? {
        return BadRequest({});
      }
      var cityExists := repository.CityExists(cityId);
      if !cityExists {
        return NotFound;
      }
      var entity := repository.GetPointOfInterestForCity(cityId, id);
      if entity.None? {
        return NotFound;
      }
      var toPatch := ToUpdateDto(entity.value);
      var patched := ApplyTo(patchDoc.value, toPatch);
      if patched.errors != {} {
        return BadRequest(patched.errors);
      }
      var errors := PatchValidationErrors(patched.document.name, patched.document.description);
      if errors != {} {
        return BadRequest(errors);
      }
      repository.MapOntoTracked(id, patched.document);
      ghost var before := repository.tracked;
      var ok, _ := repository.Save(saveFails);
      if !ok {
        return InternalServerError(ProblemMessage);
      }
      InsertNone(before, repository.nextId);
      return NoContent;
    }

    /** DELETE .../{cityId}/pointsofinterest/{id}: NotFound leaves the table
        and the mail log alone; a failed save answers 500, keeps the row and
        sends nothing; otherwise the row is gone, a later lookup answers
        NotFound, and a notice naming the row is sent. */
    method DeletePointOfInterest(cityId: Int32, id: Int32, saveFails: bool) returns (r: Response)
      requires repository.Valid() && repository.Fresh()
      modifies repository, mailService
      ensures repository.Valid() && repository.cityIds == old(repository.cityIds)
      ensures cityId !in old(repository.cityIds) || old(repository.GetPointOfInterestForCity(cityId, id)).None? ==>
                r == NotFound && unchanged(repository) && mailService.sent == old(mailService.sent)
      ensures cityId in old(repository.cityIds) && old(repository.GetPointOfInterestForCity(cityId, id)).Some? ==>
                var entity := old(repository.saved)[id];
                && (saveFails ==> r == InternalServerError(ProblemMessage) && repository.saved == old(repository.saved)
                                  && repository.tracked == old(repository.saved) - {id}
                                  && mailService.sent == old(mailService.sent))
                && (!saveFails ==> r == NoContent && repository.saved == old(repository.saved) - {id}
                                   && repository.GetPointOfInterestForCity(cityId, id).None?
                                   && mailService.sent == old(mailService.sent) + [DeletionNotice(entity.name, entity.id)])
      ensures repository.nextId == old(repository.nextId) && repository.added == []
      ensures r == NoContent ==> repository.Fresh()
    {
      var cityExists := repository.CityExists(cityId);
      if !cityExists {
        return NotFound;
      }
      var entity := repository.GetPointOfInterestForCity(cityId, id);
      if entity.None? {
        return NotFound;
      }
      repository.DeletePointOfInterest(entity.value);
      ghost var before := repository.tracked;
      var ok, _ := repository.Save(saveFails);
      if !ok {
        return InternalServerError(ProblemMessage);
      }
      InsertNone(before, repository.nextId);
      var notice := DeletionNotice(entity.value.name, entity.value.id);
      mailService.Send(notice.subject, notice.message);
      return NoContent;
    }

    /** A DELETE followed, in the next request, by a POST: the key the POST
        hands out is new to the table as it was before both, so a key that
        was deleted is never handed out again. */
    method DeleteThenCreate(cityId: Int32, id: Int32, body: Option<PointOfInterestForCreationDto>,
                            deleteFails: bool, createFails: bool) returns (deleted: Response, created: Response)
      requires repository.Valid() && repository.Fresh()
      modifies repository, mailService
      ensures repository.Valid() && repository.cityIds == old(repository.cityIds)
      ensures created.CreatedAtRoute? ==> created.id !in old(repository.saved)
      ensures deleted == NoContent && created.CreatedAtRoute? ==> created.id != id
    {
      deleted := DeletePointOfInterest(cityId, id, deleteFails);
      repository.EndRequest();
      created := CreatePointOfInterest(cityId, body, createFails);
    }
  }

  /** Saving with nothing added stores the tracked rows as they are. */
  lemma InsertNone(t: Table, next: int)
    requires 0 < next <= MaxInt32 + 1 && forall k :: k in t ==> k < next
    ensures Insert(t, [], next) == t
  {
  }

  /** Saving one added row stores it under the next key beside the others. */
  lemma InsertOne(t: Table, p: PointOfInterest, next: int)
    requires 0 < next <= MaxInt32 && forall k :: k in t ==> k < next
    ensures Insert(t, [p], next) == t[next := p.(id := next)]
  {
    assert [p][1..] == [];
  }
}
