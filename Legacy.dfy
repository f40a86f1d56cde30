/** The second set of document endpoints, registered directly on the app
    under `/api/documents`: create, update, delete and a second verify path.
    None of them touches the blob store, and the verify path accepts
    `verified` and records no history. */
module LegacyDocumentApi {
  import opened Types
  import opened Collaborators
  import DocumentRoutes

  /** The statuses the legacy verify path accepts. */
  const LegacyVerifyStatuses: seq<string> := ["approved", "rejected", "pending_revision", "verified"]

  datatype CreateBody = CreateBody(
    subcontractorId: Option<string>,
    docType: Option<string>,
    fileUrl: Option<string>,
    status: Option<string>,
    expiresAt: Option<string>)

  datatype UpdateBody = UpdateBody(
    docType: Option<string>,
    fileUrl: Option<string>,
    status: Option<string>,
    expiresAt: Option<string>)

  datatype LegacyVerifyBody = LegacyVerifyBody(status: Option<string>, verifiedBy: Option<string>)

  datatype LegacyError =
    | MissingFields                                   // 400 "Missing required fields"
    | MissingVerifyFields(required: seq<string>)      // 400, with the required field names
    | InvalidStatus(validStatuses: seq<string>)       // 400, with the accepted statuses
    | NotFound                                        // 404
    | ExpiredDocument(expirationDate: Time)           // 400 "Cannot verify expired document"
    | CreateFailed                                    // 500
    | UpdateFailed                                    // 500
    | DeleteFailed                                    // 500
    | VerifyFailed                                    // 500

  /** The HTTP status each error is answered with. */
  function LegacyHttpStatus(e: LegacyError): (code: int)
    ensures code == 500 <==> e.CreateFailed? || e.UpdateFailed? || e.DeleteFailed? || e.VerifyFailed?
    ensures code == 404 <==> e.NotFound?
    ensures code == 400 <==> e.MissingFields? || e.MissingVerifyFields? || e.InvalidStatus? || e.ExpiredDocument?
  {
    match e
    case CreateFailed | UpdateFailed | DeleteFailed | VerifyFailed => 500
    case NotFound => 404
    case _ => 400
  }

  // ---------------------------------------------------------------------------
  // POST /api/documents

  predicate CreateFieldsPresent(body: CreateBody) {
    Truthy(body.subcontractorId) && Truthy(body.docType) && Truthy(body.fileUrl)
  }

  /** The record POST /api/documents writes; None when the store refuses it
      because a supplied `expiresAt` is not a date. */
  function NewRecord(body: CreateBody, parseDate: string -> Option<Time>): (d: Option<Document>)
    requires CreateFieldsPresent(body)
    ensures d.Some? <==> (Truthy(body.expiresAt) ==> parseDate(body.expiresAt.value).Some?)
    ensures d.Some? ==>
      && d.value.subcontractorId == body.subcontractorId.value
      && d.value.docType == body.docType.value
      && d.value.fileUrl == body.fileUrl.value
      && d.value.verifiedBy == None && d.value.verificationDate == None
      && d.value.metadata == EmptyMetadata
    ensures d.Some? && body.status.None? ==> d.value.status == Pending
    ensures d.Some? && body.status.Some? ==> StatusName(d.value.status) == body.status.value
    ensures d.Some? && !Truthy(body.expiresAt) ==> d.value.expiresAt == None
    ensures d.Some? && Truthy(body.expiresAt) ==> d.value.expiresAt == parseDate(body.expiresAt.value)
  {
    var status := if body.status.Some? then ParseStatus(body.status.value) else Pending;
    if Truthy(body.expiresAt) && parseDate(body.expiresAt.value).None? then None
    else
      var expiresAt := if Truthy(body.expiresAt) then parseDate(body.expiresAt.value) else None;
      Some(Document(body.subcontractorId.value, body.docType.value, body.fileUrl.value, status, expiresAt,
                    None, None, EmptyMetadata))
  }

  method CreateDocument(db: Database, body: CreateBody, parseDate: string -> Option<Time>, fails: bool)
    returns (r: Result<DocId, LegacyError>)
    requires db.Valid()
    modifies db
    ensures db.Valid()
    ensures db.notifications == old(db.notifications) && db.userEmails == old(db.userEmails)
    ensures !CreateFieldsPresent(body) ==> r == Err(MissingFields) && db.docs == old(db.docs)
    ensures CreateFieldsPresent(body) ==>
      var rec := NewRecord(body, parseDate);
      if rec.Some? && !fails then
        r.Ok? && r.value !in old(db.docs) && db.docs == old(db.docs)[r.value := rec.value]
      else
        r == Err(CreateFailed) && db.docs == old(db.docs)
  {
    if !CreateFieldsPresent(body) {
      return Err(MissingFields);
    }
    var rec := NewRecord(body, parseDate);
    if rec.None? {
      return Err(CreateFailed);
    }
    var id := db.Create(rec.value, fails);
    if id.None? {
      return Err(CreateFailed);
    }
    return Ok(id.value);
  }

  // ---------------------------------------------------------------------------
  // PUT /api/documents/:id

  /** The record after an update: each supplied field overwrites, an absent
      one is kept; `expiresAt` only when it is supplied and not empty. None
      when the store refuses an `expiresAt` that is not a date. */
  function Patched(doc: Document, body: UpdateBody, parseDate: string -> Option<Time>): (d: Option<Document>)
    ensures d.Some? <==> (Truthy(body.expiresAt) ==> parseDate(body.expiresAt.value).Some?)
    ensures d.Some? && !Truthy(body.expiresAt) ==> d.value.expiresAt == doc.expiresAt
    ensures d.Some? && Truthy(body.expiresAt) ==> d.value.expiresAt == parseDate(body.expiresAt.value)
    ensures d.Some? ==>
      && d.value.docType == body.docType.GetOr(doc.docType)
      && d.value.fileUrl == body.fileUrl.GetOr(doc.fileUrl)
      && (body.status.None? ==> d.value.status == doc.status)
      && (body.status.Some? ==> StatusName(d.value.status) == body.status.value)
    ensures d.Some? ==>
      d.value.(docType := doc.docType, fileUrl := doc.fileUrl, status := doc.status, expiresAt := doc.expiresAt) == doc
  {
    if Truthy(body.expiresAt) && parseDate(body.expiresAt.value).None? then None
    else
      Some(doc.(
        docType := body.docType.GetOr(doc.docType),
        fileUrl := body.fileUrl.GetOr(doc.fileUrl),
        status := if body.status.Some? then ParseStatus(body.status.value) else doc.status,
        expiresAt := if Truthy(body.expiresAt) then parseDate(body.expiresAt.value) else doc.expiresAt))
  }

  /** An unknown id makes the store's update throw, answered with 500. */
  method UpdateDocument(db: Database, id: DocId, body: UpdateBody, parseDate: string -> Option<Time>, fails: bool)
    returns (r: Result<Document, LegacyError>)
    requires db.Valid()
    modifies db
    ensures db.Valid()
    ensures db.notifications == old(db.notifications) && db.userEmails == old(db.userEmails)
    ensures id !in old(db.docs) ==> r == Err(UpdateFailed) && db.docs == old(db.docs)
    ensures id in old(db.docs) ==>
      var patched := Patched(old(db.docs)[id], body, parseDate);
      if patched.Some? && !fails then
        r == Ok(patched.value) && db.docs == old(db.docs)[id := patched.value]
      else
        r == Err(UpdateFailed) && db.docs == old(db.docs)
  {
    if id !in db.docs {
      return Err(UpdateFailed);
    }
    var patched := Patched(db.docs[id], body, parseDate);
    if patched.None? {
      return Err(UpdateFailed);
    }
    var ok := db.Update(id, patched.value, fails);
    if !ok {
      return Err(UpdateFailed);
    }
    return Ok(patched.value);
  }

  // ---------------------------------------------------------------------------
  // DELETE /api/documents/:id

  /** Removes the record only; the stored object, if any, is not deleted.
      An unknown id makes the store's delete throw, answered with 500. */
  method DeleteDocument(db: Database, id: DocId, fails: bool) returns (r: Result<(), LegacyError>)
    requires db.Valid()
    modifies db
    ensures db.Valid()
    ensures db.notifications == old(db.notifications) && db.userEmails == old(db.userEmails)
    ensures r.Ok? <==> id in old(db.docs) && !fails
    ensures r.Err? ==> r == Err(DeleteFailed)
    ensures db.docs == if r.Ok? then old(db.docs) - {id} else old(db.docs)
  {
    if id !in db.docs {
      return Err(DeleteFailed);
    }
    var ok := db.Delete(id, fails);
    if !ok {
      return Err(DeleteFailed);
    }
    return Ok(());
  }

  // ---------------------------------------------------------------------------
  // POST /api/documents/:id/verify

  /** The legacy verify decision: no ownership check, `verified` allowed, and
      the metadata written back as it was. */
  function LegacyVerifyDecision(docs: map<DocId, Document>, id: DocId, body: LegacyVerifyBody, now: Time)
    : (r: Result<Document, LegacyError>)
    ensures r.Ok? <==>
      && Truthy(body.status) && Truthy(body.verifiedBy) && body.status.value in LegacyVerifyStatuses
      && id in docs && !PastExpiry(docs[id], now)
    ensures !Truthy(body.status) || !Truthy(body.verifiedBy) ==> r == Err(MissingVerifyFields(["status", "verifiedBy"]))
    ensures Truthy(body.status) && Truthy(body.verifiedBy) && body.status.value !in LegacyVerifyStatuses ==>
      r == Err(InvalidStatus(LegacyVerifyStatuses))
    ensures Truthy(body.status) && Truthy(body.verifiedBy) && body.status.value in LegacyVerifyStatuses ==>
      && (id !in docs ==> r == Err(NotFound))
      && (id in docs && PastExpiry(docs[id], now) ==> r == Err(ExpiredDocument(docs[id].expiresAt.value)))
    ensures r.Ok? ==>
      && r.value.status == ParseStatus(body.status.value)
      && r.value.verifiedBy == Some(body.verifiedBy.value)
      && r.value.verificationDate == Some(now)
      && r.value.(status := docs[id].status, verifiedBy := docs[id].verifiedBy,
                  verificationDate := docs[id].verificationDate) == docs[id]
  {
    if !Truthy(body.status) || !Truthy(body.verifiedBy) then Err(MissingVerifyFields(["status", "verifiedBy"]))
    else if body.status.value !in LegacyVerifyStatuses then Err(InvalidStatus(LegacyVerifyStatuses))
    else if id !in docs then Err(NotFound)
    else if PastExpiry(docs[id], now) then Err(ExpiredDocument(docs[id].expiresAt.value))
    else Ok(docs[id].(status := ParseStatus(body.status.value), verificationDate := Some(now),
                      verifiedBy := Some(body.verifiedBy.value), metadata := docs[id].metadata))
  }

  method VerifyDocument(db: Database, id: DocId, body: LegacyVerifyBody, now: Time, fails: bool)
    returns (r: Result<Document, LegacyError>)
    requires db.Valid()
    modifies db
    ensures db.Valid()
    ensures db.notifications == old(db.notifications) && db.userEmails == old(db.userEmails)
    ensures var decision := LegacyVerifyDecision(old(db.docs), id, body, now);
      r == if decision.Ok? && fails then Err(VerifyFailed) else decision
    ensures db.docs == if r.Ok? then old(db.docs)[id := r.value] else old(db.docs)
  {
    if !Truthy(body.status) || !Truthy(body.verifiedBy) {
      return Err(MissingVerifyFields(["status", "verifiedBy"]));
    }
    if body.status.value !in LegacyVerifyStatuses {
      return Err(InvalidStatus(LegacyVerifyStatuses));
    }
    if id !in db.docs {
      return Err(NotFound);
    }
    var existing := db.docs[id];
    if PastExpiry(existing, now) {
      return Err(ExpiredDocument(existing.expiresAt.value));
    }
    var updated := existing.(status := ParseStatus(body.status.value), verificationDate := Some(now),
                             verifiedBy := Some(body.verifiedBy.value), metadata := existing.metadata);
    var ok := db.Update(id, updated, fails);
    if !ok {
      return Err(VerifyFailed);
    }
    return Ok(updated);
  }

  // ---------------------------------------------------------------------------
  // The two verify paths compared

  /** Whatever the route verifies, the legacy path verifies too, with the
      same status, verifier and date; it differs only in leaving the
      metadata, and so the history, as it was. */
  lemma LegacyVerifiesWhatRouteVerifies(docs: map<DocId, Document>, subcontractorId: string, id: DocId,
                                        body: DocumentRoutes.VerifyBody, now: Time)
    requires DocumentRoutes.VerifyDecision(docs, subcontractorId, id, body, now).Ok?
    ensures var route := DocumentRoutes.VerifyDecision(docs, subcontractorId, id, body, now).value;
            var legacy := LegacyVerifyDecision(docs, id, LegacyVerifyBody(body.status, body.verifiedBy), now);
      && legacy.Ok?
      && legacy.value == route.(metadata := docs[id].metadata)
      && |History(legacy.value.metadata.history)| + 1 == |History(route.metadata.history)|
  {
    var route := DocumentRoutes.VerifyDecision(docs, subcontractorId, id, body, now).value;
    assert body.status.value in LegacyVerifyStatuses;
    var legacy := LegacyVerifyDecision(docs, id, LegacyVerifyBody(body.status, body.verifiedBy), now);
    assert legacy.value.(metadata := route.metadata) == route;
  }

  /** `verified` separates the two paths: the legacy path stores it, the
      route refuses it as an invalid status. */
  lemma OnlyLegacyAcceptsVerified(docs: map<DocId, Document>, subcontractorId: string, id: DocId,
                                  verifiedBy: string, now: Time)
    requires Owns(docs, id, subcontractorId) && !PastExpiry(docs[id], now) && verifiedBy != ""
    ensures var legacy := LegacyVerifyDecision(docs, id, LegacyVerifyBody(Some("verified"), Some(verifiedBy)), now);
      legacy.Ok? && legacy.value.status == Verified
    ensures DocumentRoutes.VerifyDecision(docs, subcontractorId, id,
              DocumentRoutes.VerifyBody(Some("verified"), Some(verifiedBy), None), now)
            == Err(DocumentRoutes.InvalidStatus)
  {
  }

  /** The legacy path keeps the history exactly as it was. */
  lemma LegacyVerifyKeepsHistory(docs: map<DocId, Document>, id: DocId, body: LegacyVerifyBody, now: Time)
    requires LegacyVerifyDecision(docs, id, body, now).Ok?
    ensures LegacyVerifyDecision(docs, id, body, now).value.metadata.history == docs[id].metadata.history
  {
  }
}
