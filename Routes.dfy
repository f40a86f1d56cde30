/** The document routes mounted under `/api/subcontractors`: upload, delete
    and verify. Each handler is a method performing its effects on the record
    store and the blob store in the order the route does; its decision is
    specified by pure functions, about which the lemmas below are stated. */
module DocumentRoutes {
  import opened Types
  import opened Collaborators

  /** The upload size limit: 10 MiB. */
  const MaxFileSize: nat := 10 * 1024 * 1024

  const AllowedMimeTypes: seq<string> := ["application/pdf", "image/jpeg", "image/png", "image/gif"]

  /** The statuses the verify route accepts. */
  const RouteVerifyStatuses: seq<string> := ["approved", "rejected", "pending_revision"]

  /** The file part of a multipart upload. */
  datatype FilePart = FilePart(originalName: string, mimeType: string, size: nat)

  /** The text fields of a multipart upload. */
  datatype UploadBody = UploadBody(docType: Option<string>, expiresAt: Option<string>)

  datatype VerifyBody = VerifyBody(status: Option<string>, verifiedBy: Option<string>, notes: Option<string>)

  /** What the multipart stage makes of the file part: the file filter runs
      first, then the size limit. */
  datatype Reception = NoFile | Filtered | TooLarge | Accepted(file: FilePart)

  /** What the storage engine reports about a stored file. */
  datatype StoredFile = StoredFile(file: FilePart, location: Option<string>, key: Option<string>, bucket: Option<string>)

  datatype RouteError =
    | StorageFailed                                   // the storage engine failed while storing (a multer error, 400)
    | FileTooLarge                                    // the size limit was exceeded
    | InvalidDocumentType(validTypes: seq<string>)
    | InvalidExpirationDate
    | InvalidFileType                                 // the file filter dropped the file
    | NoFileUploaded
    | SaveFailed                                      // "Failed to save document"
    | NotFound
    | BlobDeleteFailed                                // "Failed to delete file from storage"
    | DeleteFailed                                    // "Failed to delete document"
    | MissingRequiredFields
    | InvalidStatus
    | CannotVerifyExpired
    | VerifyFailed                                    // "Failed to verify document"

  /** The HTTP status each error is answered with. */
  function HttpStatus(e: RouteError): (code: int)
    ensures code == 500 <==> e in {SaveFailed, BlobDeleteFailed, DeleteFailed, VerifyFailed}
    ensures code == 404 <==> e == NotFound
    ensures code in {400, 404, 500}
  {
    match e
    case SaveFailed | BlobDeleteFailed | DeleteFailed | VerifyFailed => 500
    case NotFound => 404
    case _ => 400
  }

  // ---------------------------------------------------------------------------
  // Decimal rendering, for object keys and memory URLs

  function DigitChar(d: nat): char
    requires d < 10
  {
    "0123456789"[d]
  }

  function NatToString(n: nat): string
    decreases n
  {
    if n < 10 then [DigitChar(n)] else NatToString(n / 10) + [DigitChar(n % 10)]
  }

  function IntToString(i: int): string {
    if i < 0 then "-" + NatToString(-i) else NatToString(i)
  }

  // ---------------------------------------------------------------------------
  // Upload

  /** The multipart stage: a file reaches the handler exactly when it is
      whitelisted and at most 10 MiB; a file that is not whitelisted is
      dropped before its size is looked at. */
  function Receive(part: Option<FilePart>): (rec: Reception)
    ensures rec == NoFile <==> part.None?
    ensures rec == Filtered <==> part.Some? && part.value.mimeType !in AllowedMimeTypes
    ensures rec == TooLarge <==>
      part.Some? && part.value.mimeType in AllowedMimeTypes && part.value.size > MaxFileSize
    ensures rec.Accepted? <==>
      part.Some? && part.value.mimeType in AllowedMimeTypes && part.value.size <= MaxFileSize
    ensures rec.Accepted? ==> rec.file == part.value
  {
    match part
    case None => NoFile
    case Some(p) =>
      if p.mimeType !in AllowedMimeTypes then Filtered
      else if p.size > MaxFileSize then TooLarge
      else Accepted(p)
  }

  /** The key an upload is stored under: `documents/<now>-<original name>`. */
  function ObjectKey(now: Time, originalName: string): (k: string)
    ensures |k| > 10 + |originalName| && k[..10] == "documents/"
    ensures k[|k| - |originalName| - 1..] == "-" + originalName
  {
    "documents/" + IntToString(now) + "-" + originalName
  }

  predicate TypeAccepted(docType: Option<string>) {
    Truthy(docType) && docType.value in ValidTypeNames
  }

  /** The error an upload ends with before any record is written, in the
      order the multipart stage and then the handler test them; None when
      every check passes. */
  function UploadCheck(rec: Reception, putFails: bool, body: UploadBody, now: Time,
                       parseDate: string -> Option<Time>): (e: Option<RouteError>)
    ensures e.None? <==>
      rec.Accepted? && !putFails && TypeAccepted(body.docType) && ExpiryAcceptable(body.expiresAt, now, parseDate)
    ensures rec == TooLarge ==> e == Some(FileTooLarge)
    ensures rec != TooLarge && !(rec.Accepted? && putFails) && !TypeAccepted(body.docType) ==>
      e == Some(InvalidDocumentType(ValidTypeNames))
    ensures rec != TooLarge && !(rec.Accepted? && putFails) && TypeAccepted(body.docType)
            && !ExpiryAcceptable(body.expiresAt, now, parseDate) ==>
      e == Some(InvalidExpirationDate)
    ensures rec == Filtered && TypeAccepted(body.docType) && ExpiryAcceptable(body.expiresAt, now, parseDate) ==>
      e == Some(InvalidFileType)
    ensures rec.Accepted? && putFails ==> e == Some(StorageFailed)
    ensures rec == NoFile && TypeAccepted(body.docType) && ExpiryAcceptable(body.expiresAt, now, parseDate) ==>
      e == Some(NoFileUploaded)
    ensures e.Some? ==> HttpStatus(e.value) == 400
  {
    if rec == TooLarge then Some(FileTooLarge)
    else if rec.Accepted? && putFails then Some(StorageFailed)
    else if !TypeAccepted(body.docType) then Some(InvalidDocumentType(ValidTypeNames))
    else if Truthy(body.expiresAt) && (parseDate(body.expiresAt.value).None? || parseDate(body.expiresAt.value).value < now)
    then Some(InvalidExpirationDate)
    else if rec == NoFile then Some(NoFileUploaded)
    else if rec == Filtered then Some(InvalidFileType)
    else None
  }

  /** The stored `expiresAt`: the parsed date when one was supplied, else null. */
  function ExpiryValue(expiresAt: Option<string>, parseDate: string -> Option<Time>): Option<Time> {
    if Truthy(expiresAt) then parseDate(expiresAt.value) else None
  }

  /** What the blob store reports for a file it stored at time `now`. */
  function Stored(blobs: BlobStore, file: FilePart, now: Time): StoredFile {
    var key := ObjectKey(now, file.originalName);
    StoredFile(file, Some(blobs.Location(key)), Some(key), Some(blobs.bucket))
  }

  /** The record an accepted upload creates. */
  function UploadedRecord(subcontractorId: string, docType: string, expiresAt: Option<Time>,
                          f: StoredFile, now: Time): (d: Document)
    ensures d.status == Pending && d.subcontractorId == subcontractorId && d.docType == docType
    ensures d.expiresAt == expiresAt && d.verifiedBy == None && d.verificationDate == None
    ensures d.metadata.originalName == Some(f.file.originalName)
    ensures d.metadata.size == Some(f.file.size) && d.metadata.mimeType == Some(f.file.mimeType)
    ensures d.metadata.key.Some? <==> Truthy(f.key)
    ensures d.metadata.bucket.Some? <==> Truthy(f.bucket)
    ensures d.metadata.key.Some? ==> d.metadata.key == f.key
    ensures d.metadata.bucket.Some? ==> d.metadata.bucket == f.bucket
    ensures d.metadata.history == NoHistory && d.metadata.lastVerifiedAt == None && d.metadata.extra == map[]
    ensures Truthy(f.location) ==> d.fileUrl == f.location.value
    ensures !Truthy(f.location) ==> d.fileUrl == "memory://" + f.file.originalName + "-" + IntToString(now)
  {
    var meta := EmptyMetadata.(
      originalName := Some(f.file.originalName),
      size := Some(f.file.size),
      mimeType := Some(f.file.mimeType),
      key := if Truthy(f.key) then f.key else None,
      bucket := if Truthy(f.bucket) then f.bucket else None);
    var fileUrl :=
      if Truthy(f.location) then f.location.value
      else "memory://" + f.file.originalName + "-" + IntToString(now);
    Document(subcontractorId, docType, fileUrl, Pending, expiresAt, None, None, meta)
  }

  /** The object the compensating delete targets: the reported key in the
      reported bucket, falling back to the configured bucket; None when
      either is unknown, in which case no delete is attempted. */
  function CleanupTarget(f: StoredFile, envBucket: Option<string>): (t: Option<BlobRef>)
    ensures t.Some? <==> Truthy(f.key) && (Truthy(f.bucket) || Truthy(envBucket))
    ensures t.Some? ==> t.value.key == f.key.value
    ensures t.Some? && Truthy(f.bucket) ==> t.value.bucket == f.bucket.value
    ensures t.Some? && !Truthy(f.bucket) ==> t.value.bucket == envBucket.value
  {
    var bucket := if Truthy(f.bucket) then f.bucket else envBucket;
    if Truthy(f.key) && Truthy(bucket) then Some(BlobRef(bucket.value, f.key.value)) else None
  }

  /** POST /:subcontractorId/documents. The multipart stage runs first and
      stores an accepted file in the blob store before the handler checks
      the type and expiry; an upload rejected by those checks therefore
      leaves its object behind. */
  method Upload(db: Database, blobs: BlobStore, subcontractorId: string, body: UploadBody,
                part: Option<FilePart>, now: Time, parseDate: string -> Option<Time>,
                envBucket: Option<string>, putFails: bool, createFails: bool, cleanupFails: bool)
    returns (r: Result<DocId, RouteError>)
    requires db.Valid()
    modifies db, blobs
    ensures db.Valid()
    ensures db.notifications == old(db.notifications) && db.userEmails == old(db.userEmails)
    ensures var check := UploadCheck(Receive(part), putFails, body, now, parseDate);
      && (check.Some? ==> r == Err(check.value) && db.docs == old(db.docs))
      && (check.None? && createFails ==> r == Err(SaveFailed) && db.docs == old(db.docs))
      && (check.None? && !createFails ==>
            r.Ok? && r.value !in old(db.docs)
            && db.docs == old(db.docs)[r.value := UploadedRecord(subcontractorId, body.docType.value,
                                                   ExpiryValue(body.expiresAt, parseDate),
                                                   Stored(blobs, part.value, now), now)])
    ensures !(Receive(part).Accepted? && !putFails) ==> blobs.objects == old(blobs.objects)
    ensures Receive(part).Accepted? && !putFails ==>
      var check := UploadCheck(Receive(part), putFails, body, now, parseDate);
      var ref := BlobRef(blobs.bucket, ObjectKey(now, part.value.originalName));
      var target := CleanupTarget(Stored(blobs, part.value, now), envBucket);
      blobs.objects ==
        if check.None? && createFails && target.Some? && !cleanupFails
        then (old(blobs.objects) + {ref}) - {target.value}
        else old(blobs.objects) + {ref}
  {
    var rec := Receive(part);
    if rec == TooLarge {
      return Err(FileTooLarge);
    }
    var stored: Option<StoredFile> := None;
    if rec.Accepted? {
      var key := ObjectKey(now, rec.file.originalName);
      var ok := blobs.Put(key, putFails);
      if !ok {
        return Err(StorageFailed);
      }
      stored := Some(Stored(blobs, rec.file, now));
    }

    if !Truthy(body.docType) || body.docType.value !in ValidTypeNames {
      return Err(InvalidDocumentType(ValidTypeNames));
    }
    if Truthy(body.expiresAt) {
      var expDate := parseDate(body.expiresAt.value);
      if expDate.None? || expDate.value < now {
        return Err(InvalidExpirationDate);
      }
    }
    if stored.None? {
      if rec == Filtered {
        return Err(InvalidFileType);
      }
      return Err(NoFileUploaded);
    }

    var f := stored.value;
    var doc := UploadedRecord(subcontractorId, body.docType.value, ExpiryValue(body.expiresAt, parseDate), f, now);
    var id := db.Create(doc, createFails);
    if id.Some? {
      return Ok(id.value);
    }
    var target := CleanupTarget(f, envBucket);
    if target.Some? {
      var _ := blobs.Delete(target.value, cleanupFails);
    }
    return Err(SaveFailed);
  }

  /** The route as written: on a fresh store, an accepted file whose upload
      then fails the type check creates no record, yet its object stays in
      the blob store. */
  method RejectedTypeLeavesBlob(part: FilePart, body: UploadBody, now: Time, parseDate: string -> Option<Time>)
    returns (r: Result<DocId, RouteError>, records: nat, orphaned: bool)
    requires Receive(Some(part)).Accepted? && !TypeAccepted(body.docType)
    ensures r == Err(InvalidDocumentType(ValidTypeNames))
    ensures records == 0 && orphaned
  {
    var db := new Database({});
    var blobs := new BlobStore("buildsync-documents", "https://buildsync-documents.s3.amazonaws.com/");
    r := Upload(db, blobs, "subcontractor", body, Some(part), now, parseDate, None, false, false, false);
    records := |db.docs|;
    orphaned := BlobRef(blobs.bucket, ObjectKey(now, part.originalName)) in blobs.objects;
  }

  /** On a fresh store, a valid insurance PDF without `expiresAt` becomes a
      pending record with no expiry. */
  method UploadWithoutExpiry(part: FilePart, now: Time, parseDate: string -> Option<Time>)
    returns (r: Result<DocId, RouteError>, doc: Document)
    requires part.mimeType == "application/pdf" && part.size <= MaxFileSize
    ensures r.Ok?
    ensures doc.status == Pending && doc.expiresAt == None && doc.docType == "insurance"
  {
    var db := new Database({});
    var blobs := new BlobStore("buildsync-documents", "https://buildsync-documents.s3.amazonaws.com/");
    r := Upload(db, blobs, "subcontractor", UploadBody(Some("insurance"), None), Some(part), now, parseDate,
                None, false, false, false);
    doc := db.docs[r.value];
  }

  // ---------------------------------------------------------------------------
  // Delete

  /** DELETE /:subcontractorId/documents/:documentId. The stored object is
      deleted first; if that fails the record is kept. */
  method DeleteDocument(db: Database, blobs: BlobStore, subcontractorId: string, documentId: DocId,
                        blobFails: bool, recordFails: bool)
    returns (r: Result<(), RouteError>)
    requires db.Valid()
    modifies db, blobs
    ensures db.Valid()
    ensures db.notifications == old(db.notifications) && db.userEmails == old(db.userEmails)
    ensures !Owns(old(db.docs), documentId, subcontractorId) ==>
      r == Err(NotFound) && db.docs == old(db.docs) && blobs.objects == old(blobs.objects)
    ensures Owns(old(db.docs), documentId, subcontractorId) ==>
      var key := old(db.docs)[documentId].metadata.key;
      if Truthy(key) && blobFails then
        r == Err(BlobDeleteFailed) && db.docs == old(db.docs) && blobs.objects == old(blobs.objects)
      else
        && blobs.objects == (if Truthy(key) then old(blobs.objects) - {BlobRef(blobs.bucket, key.value)} else old(blobs.objects))
        && r == (if recordFails then Err(DeleteFailed) else Ok(()))
        && db.docs == (if recordFails then old(db.docs) else old(db.docs) - {documentId})
  {
    if !Owns(db.docs, documentId, subcontractorId) {
      return Err(NotFound);
    }
    var existingMeta := db.docs[documentId].metadata;
    if Truthy(existingMeta.key) {
      var ok := blobs.Delete(BlobRef(blobs.bucket, existingMeta.key.value), blobFails);
      if !ok {
        return Err(BlobDeleteFailed);
      }
    }
    var ok := db.Delete(documentId, recordFails);
    if !ok {
      return Err(DeleteFailed);
    }
    return Ok(());
  }

  /** Upload and delete are inverse on the stores: on a fresh store, deleting
      a freshly uploaded document removes both its record and its object,
      because the record carries the key the object was stored under. This
      holds for metadata kept as a structured value, as here; the route as
      written stores the metadata as a JSON string, from which delete reads
      no key, so there the object stays behind. */
  method UploadThenDelete(part: FilePart, body: UploadBody, now: Time, parseDate: string -> Option<Time>)
    returns (uploaded: Result<DocId, RouteError>, deleted: Result<(), RouteError>, records: nat, objects: nat)
    requires Receive(Some(part)).Accepted? && TypeAccepted(body.docType)
    requires ExpiryAcceptable(body.expiresAt, now, parseDate)
    ensures uploaded.Ok? && deleted == Ok(())
    ensures records == 0 && objects == 0
  {
    var db := new Database({});
    var blobs := new BlobStore("buildsync-documents", "https://buildsync-documents.s3.amazonaws.com/");
    uploaded := Upload(db, blobs, "subcontractor", body, Some(part), now, parseDate, None, false, false, false);
    assert blobs.objects == {BlobRef(blobs.bucket, ObjectKey(now, part.originalName))};
    deleted := DeleteDocument(db, blobs, "subcontractor", uploaded.value, false, false);
    records := |db.docs|;
    objects := |blobs.objects|;
  }

  // ---------------------------------------------------------------------------
  // Verify

  /** `verificationNotes || null`. */
  function NotesOrNull(notes: Option<string>): Option<string> {
    if Truthy(notes) then notes else None
  }

  /** The document after a successful verification: the new status,
      verifier and date, one history entry appended and `lastVerifiedAt`
      set; every other field and metadata key is kept. */
  function WithVerification(doc: Document, status: Status, verifiedBy: string, notes: Option<string>,
                            now: Time): (d: Document)
    ensures History(d.metadata.history) == History(doc.metadata.history) + [HistoryEntry(status, verifiedBy, now, notes)]
    ensures d.status == status && d.verifiedBy == Some(verifiedBy) && d.verificationDate == Some(now)
    ensures d.metadata.lastVerifiedAt == Some(now)
    ensures d.metadata.(lastVerifiedAt := doc.metadata.lastVerifiedAt, history := doc.metadata.history) == doc.metadata
    ensures d.(status := doc.status, verifiedBy := doc.verifiedBy, verificationDate := doc.verificationDate,
               metadata := doc.metadata) == doc
  {
    var entry := HistoryEntry(status, verifiedBy, now, notes);
    var history := Entries(History(doc.metadata.history) + [entry]);
    doc.(status := status, verificationDate := Some(now), verifiedBy := Some(verifiedBy),
         metadata := doc.metadata.(lastVerifiedAt := Some(now), history := history))
  }

  /** The verify route's decision on the store as it is when the request
      arrives. */
  function VerifyDecision(docs: map<DocId, Document>, subcontractorId: string, documentId: DocId,
                          body: VerifyBody, now: Time): (r: Result<Document, RouteError>)
    ensures r.Ok? <==>
      && Truthy(body.status) && Truthy(body.verifiedBy) && body.status.value in RouteVerifyStatuses
      && Owns(docs, documentId, subcontractorId) && !PastExpiry(docs[documentId], now)
    ensures !Truthy(body.status) || !Truthy(body.verifiedBy) ==> r == Err(MissingRequiredFields)
    ensures Truthy(body.status) && Truthy(body.verifiedBy) && body.status.value !in RouteVerifyStatuses ==>
      r == Err(InvalidStatus)
    ensures Truthy(body.status) && Truthy(body.verifiedBy) && body.status.value in RouteVerifyStatuses ==>
      && (!Owns(docs, documentId, subcontractorId) ==> r == Err(NotFound))
      && (Owns(docs, documentId, subcontractorId) && PastExpiry(docs[documentId], now) ==> r == Err(CannotVerifyExpired))
    ensures r.Ok? ==>
      r.value == WithVerification(docs[documentId], ParseStatus(body.status.value), body.verifiedBy.value,
                                  NotesOrNull(body.notes), now)
  {
    if !Truthy(body.status) || !Truthy(body.verifiedBy) then Err(MissingRequiredFields)
    else if body.status.value !in RouteVerifyStatuses then Err(InvalidStatus)
    else if !Owns(docs, documentId, subcontractorId) then Err(NotFound)
    else if PastExpiry(docs[documentId], now) then Err(CannotVerifyExpired)
    else Ok(WithVerification(docs[documentId], ParseStatus(body.status.value), body.verifiedBy.value,
                             NotesOrNull(body.notes), now))
  }

  /** PUT /:subcontractorId/documents/:documentId/verify: a read, the
      checks, then one update of the record. */
  method Verify(db: Database, subcontractorId: string, documentId: DocId, body: VerifyBody, now: Time,
                updateFails: bool)
    returns (r: Result<Document, RouteError>)
    requires db.Valid()
    modifies db
    ensures db.Valid()
    ensures db.notifications == old(db.notifications) && db.userEmails == old(db.userEmails)
    ensures var decision := VerifyDecision(old(db.docs), subcontractorId, documentId, body, now);
      r == if decision.Ok? && updateFails then Err(VerifyFailed) else decision
    ensures db.docs == if r.Ok? then old(db.docs)[documentId := r.value] else old(db.docs)
  {
    if !Truthy(body.status) || !Truthy(body.verifiedBy) {
      return Err(MissingRequiredFields);
    }
    if body.status.value !in RouteVerifyStatuses {
      return Err(InvalidStatus);
    }
    if !Owns(db.docs, documentId, subcontractorId) {
      return Err(NotFound);
    }
    var existing := db.docs[documentId];
    if PastExpiry(existing, now) {
      return Err(CannotVerifyExpired);
    }
    var updated := WithVerification(existing, ParseStatus(body.status.value), body.verifiedBy.value,
                                    NotesOrNull(body.notes), now);
    var ok := db.Update(documentId, updated, updateFails);
    if !ok {
      return Err(VerifyFailed);
    }
    return Ok(updated);
  }

  /** Every successful verification lengthens the history by exactly one
      entry carrying the request's status, verifier and notes, and keeps the
      earlier entries in order. */
  lemma VerifyAppendsOneEntry(docs: map<DocId, Document>, subcontractorId: string, documentId: DocId,
                              body: VerifyBody, now: Time)
    requires VerifyDecision(docs, subcontractorId, documentId, body, now).Ok?
    ensures var before := History(docs[documentId].metadata.history);
            var after := History(VerifyDecision(docs, subcontractorId, documentId, body, now).value.metadata.history);
      && |after| == |before| + 1
      && after[..|before|] == before
      && after[|before|] == HistoryEntry(ParseStatus(body.status.value), body.verifiedBy.value, now, NotesOrNull(body.notes))
  {
    var before := History(docs[documentId].metadata.history);
    var after := History(VerifyDecision(docs, subcontractorId, documentId, body, now).value.metadata.history);
    assert after == before + [HistoryEntry(ParseStatus(body.status.value), body.verifiedBy.value, now, NotesOrNull(body.notes))];
  }

  /** A document whose expiry is strictly in the past is never verified,
      whatever its stored status; an expiry equal to `now` does not block. */
  lemma ExpiredDocumentNeverVerified(docs: map<DocId, Document>, subcontractorId: string, documentId: DocId,
                                     body: VerifyBody, now: Time)
    requires Owns(docs, documentId, subcontractorId) && PastExpiry(docs[documentId], now)
    ensures VerifyDecision(docs, subcontractorId, documentId, body, now).Err?
    ensures Truthy(body.status) && Truthy(body.verifiedBy) && body.status.value in RouteVerifyStatuses ==>
      VerifyDecision(docs, subcontractorId, documentId, body, now) == Err(CannotVerifyExpired)
  {
  }

  /** Every entry of a history the verify route wrote carries one of the
      three review outcomes. */
  ghost predicate ReviewedHistory(doc: Document) {
    forall e :: e in History(doc.metadata.history) ==> e.status in {Approved, Rejected, PendingRevision}
  }

  /** Verification keeps that property, and sets the status to the outcome
      it records. */
  lemma VerifyKeepsReviewedHistory(docs: map<DocId, Document>, subcontractorId: string, documentId: DocId,
                                   body: VerifyBody, now: Time)
    requires documentId in docs && ReviewedHistory(docs[documentId])
    requires VerifyDecision(docs, subcontractorId, documentId, body, now).Ok?
    ensures ReviewedHistory(VerifyDecision(docs, subcontractorId, documentId, body, now).value)
    ensures VerifyDecision(docs, subcontractorId, documentId, body, now).value.status in {Approved, Rejected, PendingRevision}
  {
    var d := VerifyDecision(docs, subcontractorId, documentId, body, now).value;
    var st := ParseStatus(body.status.value);
    assert st in {Approved, Rejected, PendingRevision};
    forall e | e in History(d.metadata.history)
      ensures e.status in {Approved, Rejected, PendingRevision}
    {
      assert e in History(docs[documentId].metadata.history) + [HistoryEntry(st, body.verifiedBy.value, now, NotesOrNull(body.notes))];
    }
  }
}
