# Compliance-document lifecycle, modelled in Dafny

This project models how the BuildSync API manages subcontractor compliance
documents (insurance certificates, licenses, certifications, contracts):

- **uploading** a file and creating a `pending` record for it, with a
  compensating blob delete when the record cannot be written;
- **deleting** a document, where the blob goes first and the record second;
- **verifying** a document, a guarded status transition that appends one
  entry to an append-only verification history;
- the **expiration scanner** `checkExpiringDocuments`, which marks overdue
  documents `expired`, then e-mails subcontractors and stores in-app
  notifications;
- the **request validators** of the document middleware;
- the **legacy document endpoints** under `/api/documents`, including a
  second verify path that accepts `verified` and records no history.

Time is an integer count of milliseconds, passed in as `now`. The record
store, the blob store and the e-mail notifier are classes over abstract
state (`Collaborators.dfy`). The writes that can fail (record create,
update and delete, blob store and delete, e-mail send, notification
create) take an explicit fault input, and their error paths are modelled;
the record reads are not (see "Left out"). The route handlers and the
scanner are methods that change those objects. Each is
specified by pure functions, and lemmas about those functions state what
the source promises.

Files:

- `Types.dfy`: document types, statuses, history entries, metadata and
  records, plus `Option`/`Result`.
- `Collaborators.dfy`: the record store (`Database`), the blob store
  (`BlobStore`) and the notifier (`Notifier`).
- `Validation.dfy`: the three validators of `documentValidation.ts`.
- `Routes.dfy`: upload, delete and verify under
  `/api/subcontractors/:subcontractorId/documents`.
- `Legacy.dfy`: POST, PUT, DELETE and verify under `/api/documents`, with
  lemmas comparing the two verify paths.
- `Scanner.dfy`: the expiration scanner.

Behaviours of the code that a reader may not expect:

- **Upload order.** The multipart stage stores the file before the type
  and expiry checks run (apps/api/src/routes/documents.ts:57-78). A
  rejected upload therefore leaves its object in the blob store: see
  `DocumentRoutes.RejectedTypeLeavesBlob`.
- **Verify cut-off.** Verification is refused only when `expiresAt < now`
  (apps/api/src/routes/documents.ts:171), so an expiry equal to `now` can
  still be verified.
- **Scan failures.** The second loop of the scanner has no `try`/`catch`
  (apps/api/src/services/notifications.ts:85-121), so the first failed send
  or record write ends the scan with an error. The `expired` statuses
  already written stay written, and the e-mails and records of the earlier
  entries stay sent and stored.
- **Blank verifier.** The verify route only tests that `verifiedBy` is
  present (apps/api/src/routes/documents.ts:165). Only the middleware
  validator, which the route does not use, trims it.
- **`expired` status.** The declared `DocumentStatus` union has no
  `expired`, yet the scanner writes that status. The model's `Status`
  datatype includes `Expired`, and also `Verified`, which the legacy path
  writes. `Types.ExpiredIsNotADocumentStatus` records that neither belongs
  to the declared union. The scanner's query compares the stored string
  (apps/api/src/services/notifications.ts:33-35), so `ExpirationScanner.Examined`
  tests the status name: a record whose status the legacy endpoints stored
  as the free text `expired` is skipped too.

## Model

| member | source | states |
|---|---|---|
| Types.ParseDocumentType | apps/api/src/types/documents.ts:3 | a string names a document type iff it is one of the five names insurance, license, certification, contract, other; the type found has that name |
| Types.TypeNameRoundTrip | apps/api/src/types/documents.ts:3 | parsing the name of any document type gives back that type |
| Types.ValidTypeNamesAreTypeNames | apps/api/src/types/documents.ts:3 | the accepted type names are exactly the names of the `DocumentType` values |
| Types.ParseStatus | apps/api/src/types/documents.ts:5 | every status string is kept verbatim; it maps to a named status iff it is one of the six known names (the four declared, plus `expired` and `verified`) |
| Types.StatusRoundTrip | apps/api/src/types/documents.ts:5 | a status read back from its name is the same status |
| Types.ExpiredIsNotADocumentStatus | apps/api/src/types/documents.ts:5 | `expired` and `verified` are not members of the declared `DocumentStatus` union, although the scanner and the legacy path store them |
| Collaborators.Database.FindMany | apps/api/src/services/notifications.ts:27-46 | the query returns each matching record id exactly once, and only matching ids |
| Collaborators.Database.CreateNotification | apps/api/src/services/notifications.ts:108-120 | a notification record is stored iff a user with the recipient address exists (the `connect` by e-mail); otherwise nothing is written |
| Validation.ValidateDocumentUpload | apps/api/src/middleware/documentValidation.ts:7-33 | `next` iff the type is one of the five and a supplied expiry parses and is not before `now`; otherwise exactly one rejection: invalid type (with the valid types), then the format error before the past-date error; an absent expiry skips both |
| Validation.UploadAcceptsExpiryAtNow | apps/api/src/middleware/documentValidation.ts:26-29 | an expiry equal to `now` is accepted |
| Validation.ValidateDocumentVerification | apps/api/src/middleware/documentValidation.ts:35-65 | `next` iff status and verifiedBy are present, the status is one of pending/approved/rejected/pending_revision and verifiedBy is not blank after trimming; the missing-fields error lists status and verifiedBy, the status error lists the valid statuses, and the blank-verifier error is given iff both are present, the status is valid and the verifier is blank |
| Validation.VerificationStatusesAreDocumentStatuses | apps/api/src/middleware/documentValidation.ts:5 | the validator's status list is exactly the declared `DocumentStatus` union |
| Validation.BlankVerifierRejected | apps/api/src/middleware/documentValidation.ts:57-62 | a verifier of spaces alone is rejected as blank once the status is valid |
| Validation.ValidateDocumentAccess | apps/api/src/middleware/documentValidation.ts:67-80 | `next` iff both route parameters are present; otherwise the missing-parameters error names both |
| DocumentRoutes.HttpStatus | apps/api/src/routes/documents.ts:52-183 | failures to save, delete or verify a record and to delete a blob are answered with 500, a missing document with 404, every other error (including a storage failure during the multipart stage) with 400 |
| DocumentRoutes.Receive | apps/api/src/routes/documents.ts:24-29 | no file part gives no file; a file of a type other than pdf/jpeg/png/gif is filtered out before its size matters; an allowed file over 10 MiB hits the size limit; otherwise the file itself reaches the handler |
| DocumentRoutes.ObjectKey | apps/api/src/routes/documents.ts:39 | the object key starts with `documents/` and ends with `-` followed by the original file name |
| DocumentRoutes.UploadCheck | apps/api/src/routes/documents.ts:56-91 | an upload passes iff the file was accepted and stored and the type and expiry are valid; otherwise its error follows the code's order: size limit, storage failure (whenever an accepted file fails to store), invalid type (with the valid types), invalid expiry, then "No file uploaded" for a missing file with valid type and expiry, or the filter's message for a filtered one; every one of these errors is a 400 |
| DocumentRoutes.UploadedRecord | apps/api/src/routes/documents.ts:93-108 | the created record is `pending` with the given subcontractor, type and expiry; its metadata holds name, size and MIME type, and holds key and bucket only when the blob store reported them, and nothing else (no history, no verification date, no other key); its file URL is the reported location, or `memory://<name>-<now>` when there is none |
| DocumentRoutes.CleanupTarget | apps/api/src/routes/documents.ts:112-123 | after a failed save, a blob delete is attempted iff the key is known and a bucket is known, from the stored file or else the configured bucket; it targets that key, and the configured bucket whenever the stored file reports none |
| DocumentRoutes.Upload | apps/api/src/routes/documents.ts:52-132 | a rejected upload writes no record; an accepted one writes exactly one fresh record `UploadedRecord(...)`; a failed save answers "Failed to save document" whatever the cleanup does; the blob store gains the object once it is stored, and loses it again only through a successful cleanup |
| DocumentRoutes.RejectedTypeLeavesBlob | apps/api/src/routes/documents.ts:56-70 | an accepted file sent with an invalid type creates no record, yet its object stays in the blob store |
| DocumentRoutes.UploadWithoutExpiry | apps/api/src/routes/documents.ts:93-108 | a valid insurance PDF with no expiry is stored as a `pending` record with no expiry |
| DocumentRoutes.UploadThenDelete | apps/api/src/routes/documents.ts:93-153 | with metadata kept as a structured value, deleting a freshly uploaded document empties both the record store and the blob store |
| DocumentRoutes.DeleteDocument | apps/api/src/routes/documents.ts:135-158 | not found, with nothing changed, unless the record belongs to the subcontractor; a record with a key loses its blob first, and a failed blob delete keeps the record; otherwise the record alone is removed, or the delete error leaves it in place |
| DocumentRoutes.WithVerification | apps/api/src/routes/documents.ts:173-177 | the history becomes the old entries (none if absent or not a list) followed by one new entry with the status, verifier, date and notes-or-null; status, verifier, verification date and `lastVerifiedAt` are set; every other metadata key and record field is kept |
| DocumentRoutes.VerifyDecision | apps/api/src/routes/documents.ts:161-178 | success iff status and verifier are present, the status is approved/rejected/pending_revision, the record belongs to the subcontractor and its expiry is not before `now`; each failure has its own error, in the code's order |
| DocumentRoutes.Verify | apps/api/src/routes/documents.ts:161-183 | the stored record changes only on success, to exactly the decided record; a failed update answers with the verify error and changes nothing |
| DocumentRoutes.VerifyAppendsOneEntry | apps/api/src/routes/documents.ts:173-177 | a successful verification lengthens the history by exactly one entry matching the request and keeps the earlier entries in order |
| DocumentRoutes.ExpiredDocumentNeverVerified | apps/api/src/routes/documents.ts:171 | a document whose expiry is before `now` is never verified, whatever its stored status |
| DocumentRoutes.VerifyKeepsReviewedHistory | apps/api/src/routes/documents.ts:166-177 | if every history entry records approved, rejected or pending_revision, that stays true after verification, and the new status is one of those three |
| LegacyDocumentApi.NewRecord | apps/api/src/index.ts:398-406 | the created record has the given subcontractor, type and file URL; its status is `pending` when none is given; its expiry is null when none is given; its metadata is empty; an unparseable expiry makes the store refuse the record |
| LegacyDocumentApi.LegacyHttpStatus | apps/api/src/index.ts:393-480 | failures to create, update, delete or verify a record are answered with 500, a missing document with 404, and missing fields, an invalid status or an expired document with 400 |
| LegacyDocumentApi.CreateDocument | apps/api/src/index.ts:393-412 | without subcontractorId, type and fileUrl the request fails with 400 and creates nothing; otherwise exactly one record is created, or the create error changes nothing |
| LegacyDocumentApi.Patched | apps/api/src/index.ts:416-420 | supplied fields overwrite and absent ones are kept; the expiry is overwritten only when a non-empty value is supplied; no other field changes |
| LegacyDocumentApi.UpdateDocument | apps/api/src/index.ts:414-426 | an unknown id or a failed write answers with the update error and changes nothing; otherwise the record becomes exactly the patched one |
| LegacyDocumentApi.DeleteDocument | apps/api/src/index.ts:428-436 | the record is removed iff it exists and the store does not fail; the blob store is not touched |
| LegacyDocumentApi.LegacyVerifyDecision | apps/api/src/index.ts:439-474 | success iff both fields are present, the status is approved/rejected/pending_revision/verified, the id exists and the expiry is not before `now`; the errors report the required fields, the valid statuses, not found, and the expiration date; on success only status, verifier and verification date change |
| LegacyDocumentApi.VerifyDocument | apps/api/src/index.ts:439-480 | the stored record changes only on success, to exactly the decided record |
| LegacyDocumentApi.LegacyVerifiesWhatRouteVerifies | apps/api/src/index.ts:466-474 | whatever the route verifies, the legacy path verifies to the same record except for the metadata, which it leaves as it was, so its history is one entry shorter |
| LegacyDocumentApi.OnlyLegacyAcceptsVerified | apps/api/src/index.ts:449-451 | `verified` is stored by the legacy path and refused by the route as an invalid status |
| LegacyDocumentApi.LegacyVerifyKeepsHistory | apps/api/src/index.ts:466-474 | the legacy path never changes the verification history |
| ExpirationScanner.CeilDiv | apps/api/src/services/notifications.ts:54-56 | the result is the ceiling of the quotient, also for negative dividends |
| ExpirationScanner.ThresholdsAreWithin30 | apps/api/src/services/notifications.ts:59-63 | the three buckets together mean exactly "at most 30 days" |
| ExpirationScanner.ExaminedIsInThresholds | apps/api/src/services/notifications.ts:27-63 | every document the query returns is at most 30 days from expiry, so it falls in a bucket and yields one entry |
| ExpirationScanner.NoDaysLeftIffDue | apps/api/src/services/notifications.ts:54-76 | zero days or fewer until expiry iff the expiry is not after `now` |
| ExpirationScanner.Scanned | apps/api/src/services/notifications.ts:75-81 | a scan changes only a document's status, and sets it to `expired` iff the query returns the document and its expiry is not after `now` |
| ExpirationScanner.ScannedStore | apps/api/src/services/notifications.ts:27-81 | a scan keeps every record id and neither adds nor removes a record |
| ExpirationScanner.ScanExpiresExactlyTheDue | apps/api/src/services/notifications.ts:27-81 | a scan marks a document `expired` iff the query returns it and its expiry is not after `now`; every other document is unchanged |
| ExpirationScanner.ScanLeavesNoDueDocument | apps/api/src/services/notifications.ts:27-81 | after a scan every document whose expiry is not after `now` has the stored status `expired`, and holds `Expired` itself when its status was in canonical form |
| ExpirationScanner.ScanIsIdempotent | apps/api/src/services/notifications.ts:27-81 | a second scan at the same instant changes no record |
| ExpirationScanner.RescanSkipsExpired | apps/api/src/services/notifications.ts:33-35 | no later scan examines a document that a scan marked `expired`, nor any document already due at the earlier scan, so none notifies about it again |
| ExpirationScanner.NotificationFor | apps/api/src/services/notifications.ts:64-72 | an entry carries the document's id, type, expiry and file URL and the subcontractor's name and company; its address is the subcontractor's when that is non-empty, and empty iff the subcontractor has none |
| ExpirationScanner.ExpiryEmail | apps/api/src/services/notifications.ts:91-105 | the notice goes to the entry's address, with subject "Document Expiration Notice - <type>", and names the subcontractor, type, company, time left and file URL |
| ExpirationScanner.ExpiryRecord | apps/api/src/services/notifications.ts:108-120 | the record is an unread `document_expiring` notification for the entry's address, titled "<type> Expiring Soon", with message "Your <type> will expire in <time left>" |
| ExpirationScanner.Addressed | apps/api/src/services/notifications.ts:86 | the entries the second loop acts on are entries of the list with a non-empty address, and every entry with a non-empty address is among them |
| ExpirationScanner.Emails | apps/api/src/services/notifications.ts:85-105 | at most one e-mail per entry; `EmailsNoticeTheAddressed` states which |
| ExpirationScanner.Records | apps/api/src/services/notifications.ts:85-120 | at most one record per entry; `RecordsRecordTheAddressed` states which |
| ExpirationScanner.EmailsNoticeTheAddressed | apps/api/src/services/notifications.ts:85-105 | the e-mails for a list of entries are exactly the notices of its addressed entries, in order |
| ExpirationScanner.RecordsRecordTheAddressed | apps/api/src/services/notifications.ts:85-120 | the records for a list of entries are exactly the notification records of its addressed entries, in order |
| ExpirationScanner.OneRecordPerEmail | apps/api/src/services/notifications.ts:85-121 | each e-mail goes to a non-empty address and is matched, position by position, by one unread `document_expiring` record titled "<type> Expiring Soon" for the user with that address |
| ExpirationScanner.EmailsAppend | apps/api/src/services/notifications.ts:85-121 | the e-mails for two lists one after the other are the e-mails of the first followed by those of the second |
| ExpirationScanner.RecordsAppend | apps/api/src/services/notifications.ts:85-121 | the records for two lists one after the other are the records of the first followed by those of the second |
| ExpirationScanner.OneEntry | apps/api/src/services/notifications.ts:85-121 | a single entry yields its own e-mail and record when it has an address, and nothing otherwise |
| ExpirationScanner.EntriesWithoutAddressSendNothing | apps/api/src/services/notifications.ts:86 | an entry without an address, anywhere in the list, adds no e-mail and no record to those of the entries around it |
| ExpirationScanner.AddressedEntrySendsItsOwn | apps/api/src/services/notifications.ts:85-121 | an entry with an address, anywhere in the list, adds exactly its own e-mail and record, between those of the entries before and after it |
| ExpirationScanner.AddressedEntriesAllSent | apps/api/src/services/notifications.ts:85-121 | when every entry has an address, every entry is acted on |
| ExpirationScanner.ScanOne | apps/api/src/services/notifications.ts:51-81 | one turn of the first loop on an examined record returns that record's entry and leaves the record scanned, all other records and the notification table unchanged |
| ExpirationScanner.CollectAndExpire | apps/api/src/services/notifications.ts:50-82 | the first loop leaves the store as the scan function says and returns one entry per examined document, with distinct ids, each built from that document and its subcontractor |
| ExpirationScanner.DeliverOne | apps/api/src/services/notifications.ts:86-120 | an entry with an address gets its e-mail and then its record; a failed send stops before the e-mail is logged and before the record, an address no user has stops after the e-mail and before the record; an entry without an address changes nothing |
| ExpirationScanner.Deliver | apps/api/src/services/notifications.ts:85-121 | the second loop sends exactly the e-mails and stores exactly the records the entries call for; a failure at the entry `j` leaves the e-mails and records of the entries before `j`, plus `j`'s e-mail when its record failed, and names `j`'s address |
| ExpirationScanner.CheckExpiringDocuments | apps/api/src/services/notifications.ts:17-124 | the store always ends in the scanned state, even when a notification fails; the entries built are exactly the examined documents, each once, built from the document and its subcontractor; on success they are returned and outbox and notification table grow by exactly their e-mails and records; on failure the logs hold those of the entries before the failing one, plus its e-mail when its record failed |
| ExpirationScanner.ScanOverdueAndUpcoming | apps/api/src/services/notifications.ts:50-82 | a document one day overdue becomes `expired`; one five days from expiry stays `pending` |
| ExpirationScanner.ScanNotifiesBoth | apps/api/src/services/notifications.ts:50-123 | the same two documents give two entries and two e-mails, with no failure |

## Left out

- HTTP plumbing is not modelled: request parsing, JSON response bodies and
  console or logger output. Each error response is represented by a
  constructor of the route's or the legacy endpoints' error type, plus the
  status code from `DocumentRoutes.HttpStatus` or
  `LegacyDocumentApi.LegacyHttpStatus`.
- Express, multer, multer-s3, S3 and Prisma are foreign libraries. They are
  represented by the `Database` and `BlobStore` classes, whose calls may
  fail through fault inputs.
- Of multer's own errors, only the size limit and a storage failure are
  modelled.
- The `NODE_ENV` switch between memory and S3 storage is not modelled.
  `Upload` always stores through the blob store. `UploadedRecord` and
  `CleanupTarget` still accept a stored file without location, key or
  bucket, which is what memory storage reports.
- Metadata serialisation is not modelled. Upload writes the metadata as a
  `JSON.stringify` string (apps/api/src/routes/documents.ts:106), but
  delete and verify read it as an object (:141, :173). Here metadata is
  always a structured value.
  - In the code as written, reading `key` from that string gives
    `undefined`, so the route's delete never removes an uploaded object.
  - Verify spreads the string's characters into the new metadata.
  - `DocumentRoutes.UploadThenDelete` holds only for the structured
    metadata.
- Object locations are `baseUrl + key` (`BlobStore.Location`), not the URL
  S3 reports.
- Calendar dates are simplified:
  - Dates are integer milliseconds.
  - `new Date(string)` is the opaque partial function `parseDate`.
  - ISO-8601 date strings in the history are `Time` values.
  - The scanner's horizon is `now + 30 * 86 400 000` ms, not `setDate(+30)`
    on the calendar, so daylight-saving shifts are not modelled.
  - The unused `sevenDaysFromNow` is dropped.
- Each request or scan reads the clock once, as `now`. The source calls
  `new Date()` and `Date.now()` several times per request.
- Human-readable text is not modelled:
  - `formatDistanceToNow` is the opaque function `distance`.
  - The e-mail's HTML body is the values it interpolates (`ExpiryNotice`).
- Delivery failure is a generalisation. `sendEmail` in
  apps/api/src/services/email.ts is a logging stub that never fails; here
  the notifier fails for the recipients in its `failing` set. With an empty
  set it behaves like the stub.
- The subcontractor and company rows the scanner joins in come from a
  parameter `contactOf`, not from a modelled table.
- ExpirationScanner.CollectAndExpire: a failing status write in the first
  loop is not modelled; every `update` to `expired` succeeds.
- The scanner's `if (!doc.expiresAt) continue` is unreachable given the
  query, so it has no branch in the model.
- Record reads that throw are not modelled. The record lookups of the
  delete and verify routes (apps/api/src/routes/documents.ts:138, :169), of
  the legacy verify (apps/api/src/index.ts:454) and the scanner's query
  (apps/api/src/services/notifications.ts:27) always succeed here; in the
  code a failing read is answered with 500, or ends the scan.
- ExpirationScanner.CheckExpiringDocuments: it fixes no order among the
  returned entries, because the store's query order is unspecified. It
  does state that each examined document appears exactly once.
- Record ids are natural numbers rather than generated strings. A route
  parameter that names no record is simply an id not in the store.
- JavaScript's `null` and `undefined` are both `None`. On PUT, Prisma
  treats them differently (null clears a field, undefined keeps it); the
  model keeps the field in both cases.
- Concurrency is not modelled: interleaving of requests with a scan, and
  the atomicity of the store's writes. The model is sequential.
- These parts of the repository are not part of this model:
  - the other CRUD endpoints in apps/api/src/index.ts;
  - the job scheduling in apps/api/src/jobs;
  - server start-up;
  - the web client.
