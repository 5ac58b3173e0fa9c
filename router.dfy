/** The `visa` procedures of routers.ts over the database. Every procedure is
    protected: without a signed-in user it fails before doing anything.
    `caller` is the signed-in user's id. */
module Router {
  import opened Wrappers
  import opened Schema
  import opened Errors
  import opened Db
  import opened Extraction

  /** The checks every procedure on one application makes first: a signed-in
      caller, a database, and a record that exists and belongs to the
      caller. A record of someone else is reported exactly like a missing
      one. */
  function Gate(available: bool, applications: map<int, Application>, caller: Option<int>, id: int)
    : (r: Result<Application, ApiError>)
    ensures r.Ok? <==> caller.Some? && available && id in applications && applications[id].userId == caller.value
    ensures r.Ok? ==> r.value == applications[id]
    ensures caller.None? ==> r == Err(Unauthorized)
    ensures caller.Some? && !available ==> r == Err(DatabaseUnavailable)
    ensures caller.Some? && available && r.Err? ==> r == Err(NotFound)
  {
    if caller.None? then Err(Unauthorized)
    else if !available then Err(DatabaseUnavailable)
    else if id in applications && applications[id].userId == caller.value then Ok(applications[id])
    else Err(NotFound)
  }

  /** A caller learns nothing about records they do not own: whether the id
      is unused or belongs to another user, the answer is the same. */
  lemma GateHidesOthersRecords(available: bool, applications: map<int, Application>, caller: int, id: int)
    requires id in applications && applications[id].userId != caller
    ensures Gate(available, applications, Some(caller), id) == Gate(available, applications - {id}, Some(caller), id)
  {
  }

  /** The ownership check as the procedures make it: getVisaApplicationById,
      then a comparison of the owner. */
  method Authorize(db: Database, caller: Option<int>, id: int) returns (r: Result<Application, ApiError>)
    ensures r == Gate(db.available, db.applications, caller, id)
  {
    if caller.None? {
      return Err(Unauthorized);
    }
    var found := db.GetApplicationById(id);
    match found {
      case Err(e) => r := Err(e);
      case Ok(None) => r := Err(NotFound);
      case Ok(Some(a)) =>
        if a.userId != caller.value {
          r := Err(NotFound);
        } else {
          r := Ok(a);
        }
    }
  }

  /** visa.create: a new draft of the caller. */
  method Create(db: Database, caller: Option<int>, now: int) returns (r: Result<Application, ApiError>)
    requires db.Valid()
    modifies db
    ensures db.Valid() && db.available == old(db.available) && db.users == old(db.users)
    ensures caller.None? ==> r == Err(Unauthorized) && db.applications == old(db.applications)
    ensures caller.Some? && !db.available ==> r == Err(DatabaseUnavailable) && db.applications == old(db.applications)
    ensures caller.Some? && db.available ==>
      && r == Ok(NewRow(old(db.nextApplicationId), caller.value, Draft, false, now))
      && db.applications == old(db.applications)[r.value.id := r.value]
      && r.value.id !in old(db.applications)
  {
    if caller.None? {
      return Err(Unauthorized);
    }
    r := db.CreateApplication(caller.value, Draft, false, now);
  }

  /** visa.list: the caller's applications, newest first. */
  method List(db: Database, caller: Option<int>) returns (r: Result<seq<Application>, ApiError>)
    requires db.Valid()
    ensures caller.None? ==> r == Err(Unauthorized)
    ensures caller.Some? && !db.available ==> r == Err(DatabaseUnavailable)
    ensures caller.Some? && db.available ==>
      r.Ok? && multiset(r.value) == multiset(db.Owned(caller.value)) && NewestFirst(r.value)
  {
    if caller.None? {
      return Err(Unauthorized);
    }
    r := db.GetUserApplications(caller.value);
  }

  /** visa.get */
  method Get(db: Database, caller: Option<int>, id: int) returns (r: Result<Application, ApiError>)
    ensures r == Gate(db.available, db.applications, caller, id)
  {
    r := Authorize(db, caller, id);
  }

  /** visa.extractFromImage. `suffix` is the random part of the key,
      `upload` the object store's answer (the URL, or the message it threw)
      and `reply` the model's. `stored` is the key the document was stored
      under and `request` what the model was asked, when the procedure got
      that far. */
  method ExtractFromImage(db: Database, caller: Option<int>, id: int, kind: DocumentKind,
                          mimeType: string, suffix: string,
                          upload: Result<string, string>, reply: LlmReply)
    returns (stored: Option<string>, request: Option<LlmRequest>, r: Result<Option<Application>, ApiError>)
    requires db.Valid() && kind.HasImage()
    modifies db
    ensures db.Valid() && db.available == old(db.available) && db.users == old(db.users)
    ensures db.nextApplicationId == old(db.nextApplicationId)
    ensures var g := Gate(old(db.available), old(db.applications), caller, id);
      && (g.Err? ==> r == Err(g.error) && stored.None? && request.None? && db.applications == old(db.applications))
      && (g.Ok? ==> stored == Some(FileKey(caller.value, kind, suffix, mimeType)))
      && (g.Ok? && upload.Err? ==>
            r == Err(UploadFailed(upload.error)) && request.None? && db.applications == old(db.applications))
      && (g.Ok? && upload.Ok? ==>
            var o := ImageEffect(g.value, kind, upload.value, reply);
            && request == Some(ImageRequest(kind, upload.value, mimeType))
            && r == o.result
            && db.applications == old(db.applications)[id := o.after])
  {
    stored, request := None, None;
    var found := Authorize(db, caller, id);
    if found.Err? {
      return stored, request, Err(found.error);
    }
    var key := FileKey(caller.value, kind, suffix, mimeType);
    stored := Some(key);
    if upload.Err? {
      return stored, request, Err(UploadFailed(upload.error));
    }
    var url := upload.value;
    request := Some(ImageRequest(kind, url, mimeType));
    ghost var o := ImageEffect(found.value, kind, url, reply);
    var cause := ImageFailure(reply);
    if cause.None? {
      var updated := db.UpdateApplication(id, ImagePatch(kind, url, ReplyData(reply)));
      match updated {
        case Ok(row) => return stored, request, Ok(row);
        case Err(e) => cause := Some(e.Message());
      }
    }
    var saved := db.UpdateApplication(id, FallbackPatch(kind, url));
    match saved {
      case Err(e) => r := Err(e);
      case Ok(_) => r := Err(ExtractionFailed(cause.value));
    }
  }

  /** visa.processTextInput. `reply` is the model's answer to a prompt
      holding `rawText`. */
  method ProcessTextInput(db: Database, caller: Option<int>, id: int, kind: DocumentKind,
                          rawText: string, reply: LlmReply)
    returns (request: Option<LlmRequest>, r: Result<Option<Application>, ApiError>)
    requires db.Valid()
    modifies db
    ensures db.Valid() && db.available == old(db.available) && db.users == old(db.users)
    ensures db.nextApplicationId == old(db.nextApplicationId)
    ensures var g := Gate(old(db.available), old(db.applications), caller, id);
      && (g.Err? ==> r == Err(g.error) && request.None? && db.applications == old(db.applications))
      && (g.Ok? ==>
            var o := TextEffect(g.value, kind, reply);
            && request == Some(TextRequest(kind, rawText))
            && r == o.result
            && db.applications == old(db.applications)[id := o.after])
  {
    request := None;
    var found := Authorize(db, caller, id);
    if found.Err? {
      return request, Err(found.error);
    }
    request := Some(TextRequest(kind, rawText));
    match TextFailure(reply) {
      case Some(cause) =>
        r := Err(TextProcessingFailed(cause));
        assert db.applications == db.applications[id := found.value];
      case None =>
        var updated := db.UpdateApplication(id, TextPatch(kind, ReplyData(reply)));
        match updated {
          case Ok(row) => r := Ok(row);
          case Err(e) =>
            r := Err(TextProcessingFailed(e.Message()));
            assert db.applications == db.applications[id := found.value];
        }
    }
  }

  /** visa.updateManualFields. `fields` holds the fields present in the
      request. */
  method UpdateManualFields(db: Database, caller: Option<int>, id: int, fields: map<Column, string>)
    returns (r: Result<Option<Application>, ApiError>)
    requires db.Valid()
    modifies db
    ensures db.Valid() && db.available == old(db.available) && db.users == old(db.users)
    ensures db.nextApplicationId == old(db.nextApplicationId)
    ensures var g := Gate(old(db.available), old(db.applications), caller, id);
      && (g.Err? ==> r == Err(g.error) && db.applications == old(db.applications))
      && (g.Ok? ==>
            var o := ManualEffect(g.value, fields);
            r == o.result && db.applications == old(db.applications)[id := o.after])
  {
    var found := Authorize(db, caller, id);
    if found.Err? {
      return Err(found.error);
    }
    r := db.UpdateApplication(id, ManualPatch(fields));
    if r.Err? {
      assert db.applications == db.applications[id := found.value];
    }
  }

  /** visa.markCompleted */
  method MarkCompleted(db: Database, caller: Option<int>, id: int) returns (r: Result<Option<Application>, ApiError>)
    requires db.Valid()
    modifies db
    ensures db.Valid() && db.available == old(db.available) && db.users == old(db.users)
    ensures db.nextApplicationId == old(db.nextApplicationId)
    ensures var g := Gate(old(db.available), old(db.applications), caller, id);
      && (g.Err? ==> r == Err(g.error) && db.applications == old(db.applications))
      && (g.Ok? ==>
            var o := CompleteEffect(g.value);
            r == o.result && db.applications == old(db.applications)[id := o.after])
  {
    var found := Authorize(db, caller, id);
    if found.Err? {
      return Err(found.error);
    }
    r := db.UpdateApplication(id, CompletePatch);
  }

  /** visa.delete */
  method Delete(db: Database, caller: Option<int>, id: int) returns (r: Result<(), ApiError>)
    requires db.Valid()
    modifies db
    ensures db.Valid() && db.available == old(db.available) && db.users == old(db.users)
    ensures db.nextApplicationId == old(db.nextApplicationId)
    ensures var g := Gate(old(db.available), old(db.applications), caller, id);
      && (g.Err? ==> r == Err(g.error) && db.applications == old(db.applications))
      && (g.Ok? ==> r == Ok(()) && db.applications == old(db.applications) - {id})
  {
    var found := Authorize(db, caller, id);
    if found.Err? {
      return Err(found.error);
    }
    r := db.DeleteApplication(id);
  }
}
