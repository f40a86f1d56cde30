/** The expiration scanner. One run queries the documents that have an
    expiry within the next 30 days and are not yet `expired`, records a
    notification entry for each, and marks those whose expiry has come as
    `expired` (first loop); it then e-mails every entry that has a recipient
    address and stores an in-app notification for it (second loop). */
module ExpirationScanner {
  import opened Types
  import opened Collaborators

  /** What the scanner learns about a document's subcontractor. */
  datatype Contact = Contact(name: string, email: Option<string>, companyName: string)

  /** One entry of the list a scan returns. */
  datatype DocumentNotification = DocumentNotification(
    id: DocId,
    docType: string,
    subcontractorName: string,
    subcontractorEmail: string,
    companyName: string,
    expiresAt: Time,
    fileUrl: string)

  /** Why a scan stopped early: the notifier refused a message, or no user
      has the recipient's address, so the notification record cannot be
      linked. */
  datatype ScanError = DeliveryFailed(to: string) | NoSuchUser(email: string)
  {
    /** The recipient address the failure concerns. */
    function Address(): string {
      match this
      case DeliveryFailed(to) => to
      case NoSuchUser(email) => email
    }
  }

  // ---------------------------------------------------------------------------
  // Date arithmetic

  /** `Math.ceil(a / b)` for a positive divisor. */
  function CeilDiv(a: int, b: int): (q: int)
    requires b > 0
    ensures b * (q - 1) < a <= b * q
  {
    var f := a / b;
    assert a == b * f + a % b;
    if a % b == 0 then f else f + 1
  }

  /** The end of the scan window: 30 days after `now`. */
  function Horizon(now: Time): Time {
    now + 30 * DayMs
  }

  function DaysUntilExpiration(expiresAt: Time, now: Time): int {
    CeilDiv(expiresAt - now, DayMs)
  }

  /** The three overlapping notification buckets: (7, 30], (0, 7] and <= 0. */
  predicate InThresholds(days: int) {
    (days <= 30 && days > 7) || (days <= 7 && days > 0) || days <= 0
  }

  /** The three buckets together are just "at most 30 days". */
  lemma ThresholdsAreWithin30(days: int)
    ensures InThresholds(days) <==> days <= 30
  {
  }

  // ---------------------------------------------------------------------------
  // What one scan does to the store

  /** The query's where clause: an expiry, at most 30 days ahead, and a
      stored status other than the string `expired`. */
  predicate Examined(doc: Document, now: Time) {
    doc.expiresAt.Some? && doc.expiresAt.value <= Horizon(now) && StatusName(doc.status) != "expired"
  }

  /** An examined document whose expiry is at most zero days away. */
  predicate ExpiresNow(doc: Document, now: Time) {
    Examined(doc, now) && DaysUntilExpiration(doc.expiresAt.value, now) <= 0
  }

  /** A document after a scan at `now`: only its status can change, and it
      becomes `expired` exactly when the document was examined and its
      expiry is not after `now`. */
  function Scanned(doc: Document, now: Time): (s: Document)
    ensures s == doc.(status := s.status)
    ensures s.status == if Examined(doc, now) && doc.expiresAt.value <= now then Expired else doc.status
  {
    if doc.expiresAt.Some? then
      NoDaysLeftIffDue(doc.expiresAt.value, now);
      if ExpiresNow(doc, now) then doc.(status := Expired) else doc
    else doc
  }

  /** The record store after a scan at `now`: the same records, each one
      scanned. */
  function ScannedStore(docs: map<DocId, Document>, now: Time): (after: map<DocId, Document>)
    ensures after.Keys == docs.Keys
  {
    map id | id in docs :: Scanned(docs[id], now)
  }

  /** Every examined document is at most 30 days from expiry, so each one
      falls in some bucket and yields exactly one entry. */
  lemma ExaminedIsInThresholds(doc: Document, now: Time)
    requires Examined(doc, now)
    ensures DaysUntilExpiration(doc.expiresAt.value, now) <= 30
    ensures InThresholds(DaysUntilExpiration(doc.expiresAt.value, now))
  {
    var q := DaysUntilExpiration(doc.expiresAt.value, now);
    assert DayMs * (q - 1) < doc.expiresAt.value - now <= 30 * DayMs;
  }

  /** Zero days or fewer is the same as an expiry not after `now`. */
  lemma NoDaysLeftIffDue(expiresAt: Time, now: Time)
    ensures DaysUntilExpiration(expiresAt, now) <= 0 <==> expiresAt <= now
  {
    var q := DaysUntilExpiration(expiresAt, now);
    assert DayMs * (q - 1) < expiresAt - now <= DayMs * q;
  }

  /** A scan marks a document `expired` exactly when it was examined and its
      expiry is not after `now`; every other document is left as it was. */
  lemma ScanExpiresExactlyTheDue(docs: map<DocId, Document>, now: Time, id: DocId)
    requires id in docs
    ensures var doc := docs[id];
      ScannedStore(docs, now)[id] ==
        if Examined(doc, now) && doc.expiresAt.value <= now then doc.(status := Expired) else doc
  {
    var doc := docs[id];
    if doc.expiresAt.Some? {
      NoDaysLeftIffDue(doc.expiresAt.value, now);
    }
  }

  /** After a scan, every document whose expiry is not after `now` has the
      stored status `expired`, whatever its status was; a document whose
      status was written in canonical form holds `Expired` itself. */
  lemma ScanLeavesNoDueDocument(docs: map<DocId, Document>, now: Time)
    ensures forall id :: id in docs && docs[id].expiresAt.Some? && docs[id].expiresAt.value <= now ==>
      StatusName(ScannedStore(docs, now)[id].status) == "expired"
    ensures forall id ::
      id in docs && docs[id].expiresAt.Some? && docs[id].expiresAt.value <= now && Canonical(docs[id].status) ==>
        ScannedStore(docs, now)[id].status == Expired
  {
    forall id | id in docs && docs[id].expiresAt.Some? && docs[id].expiresAt.value <= now
      ensures StatusName(ScannedStore(docs, now)[id].status) == "expired"
      ensures Canonical(docs[id].status) ==> ScannedStore(docs, now)[id].status == Expired
    {
      ScanExpiresExactlyTheDue(docs, now, id);
      assert "expired" in KnownStatusNames;
    }
  }

  /** Running the scan twice at the same instant changes nothing more. */
  lemma ScanIsIdempotent(docs: map<DocId, Document>, now: Time)
    ensures ScannedStore(ScannedStore(docs, now), now) == ScannedStore(docs, now)
  {
    var once := ScannedStore(docs, now);
    forall id | id in once
      ensures Scanned(once[id], now) == once[id]
    {
      ScanExpiresExactlyTheDue(docs, now, id);
    }
  }

  /** A later scan examines none of the documents an earlier one marked
      `expired`, nor any document that was already due at the earlier scan,
      so it does not notify about them again. */
  lemma RescanSkipsExpired(docs: map<DocId, Document>, now: Time, later: Time)
    ensures forall id :: id in docs && ScannedStore(docs, now)[id].status == Expired ==>
      !Examined(ScannedStore(docs, now)[id], later)
    ensures forall id :: id in docs && docs[id].expiresAt.Some? && docs[id].expiresAt.value <= now ==>
      !Examined(ScannedStore(docs, now)[id], later)
  {
    ScanLeavesNoDueDocument(docs, now);
  }

  // ---------------------------------------------------------------------------
  // Notifications

  /** The entry for an examined document; a subcontractor without an
      address gets the empty address (`email || ''`). */
  function NotificationFor(id: DocId, doc: Document, contact: Contact): (n: DocumentNotification)
    requires doc.expiresAt.Some?
    ensures n.id == id && n.docType == doc.docType && n.expiresAt == doc.expiresAt.value && n.fileUrl == doc.fileUrl
    ensures n.subcontractorName == contact.name && n.companyName == contact.companyName
    ensures n.subcontractorEmail != "" <==> Truthy(contact.email)
    ensures Truthy(contact.email) ==> n.subcontractorEmail == contact.email.value
  {
    DocumentNotification(id, doc.docType, contact.name, contact.email.GetOr(""), contact.companyName,
                         doc.expiresAt.value, doc.fileUrl)
  }

  /** The expiration notice e-mailed for one entry. */
  function ExpiryEmail(n: DocumentNotification, timeLeft: string): (e: Email)
    ensures e.to == n.subcontractorEmail && e.subject == "Document Expiration Notice - " + n.docType
    ensures e.body.docType == n.docType && e.body.fileUrl == n.fileUrl && e.body.timeLeft == timeLeft
    ensures e.body.subcontractorName == n.subcontractorName && e.body.companyName == n.companyName
  {
    Email(n.subcontractorEmail, "Document Expiration Notice - " + n.docType,
          ExpiryNotice(n.subcontractorName, n.docType, n.companyName, timeLeft, n.fileUrl))
  }

  /** The in-app notification stored for one entry. */
  function ExpiryRecord(n: DocumentNotification, timeLeft: string): (r: NotificationRecord)
    ensures r.kind == "document_expiring" && r.status == "unread" && r.userEmail == n.subcontractorEmail
    ensures r.title == n.docType + " Expiring Soon"
    ensures r.message == "Your " + n.docType + " will expire in " + timeLeft
  {
    NotificationRecord("document_expiring", n.docType + " Expiring Soon",
                       "Your " + n.docType + " will expire in " + timeLeft, "unread", n.subcontractorEmail)
  }

  /** The entries that have an address, in order. */
  function Addressed(ns: seq<DocumentNotification>): (sel: seq<DocumentNotification>)
    ensures |sel| <= |ns|
    ensures forall k :: 0 <= k < |sel| ==> sel[k] in ns && sel[k].subcontractorEmail != ""
    ensures forall k :: 0 <= k < |ns| && ns[k].subcontractorEmail != "" ==> ns[k] in sel
  {
    if ns == [] then []
    else
      var n := ns[|ns| - 1];
      assert forall m :: m in ns[..|ns| - 1] ==> m in ns;
      Addressed(ns[..|ns| - 1]) + (if n.subcontractorEmail != "" then [n] else [])
  }

  /** The e-mails the second loop sends for the entries `ns`: one notice per
      entry that has an address, in order. */
  function Emails(ns: seq<DocumentNotification>, distance: Time -> string): (es: seq<Email>)
    ensures |es| <= |ns|
  {
    if ns == [] then []
    else
      var n := ns[|ns| - 1];
      Emails(ns[..|ns| - 1], distance)
        + (if n.subcontractorEmail != "" then [ExpiryEmail(n, distance(n.expiresAt))] else [])
  }

  /** The notification records the second loop creates for the entries `ns`:
      one per entry that has an address, in order. */
  function Records(ns: seq<DocumentNotification>, distance: Time -> string): (rs: seq<NotificationRecord>)
    ensures |rs| <= |ns|
  {
    if ns == [] then []
    else
      var n := ns[|ns| - 1];
      Records(ns[..|ns| - 1], distance)
        + (if n.subcontractorEmail != "" then [ExpiryRecord(n, distance(n.expiresAt))] else [])
  }

  /** The e-mails are exactly the notices for the addressed entries, in
      order. */
  lemma {:induction false} EmailsNoticeTheAddressed(ns: seq<DocumentNotification>, distance: Time -> string)
    ensures |Emails(ns, distance)| == |Addressed(ns)|
    ensures forall k :: 0 <= k < |Addressed(ns)| ==>
      Emails(ns, distance)[k] == ExpiryEmail(Addressed(ns)[k], distance(Addressed(ns)[k].expiresAt))
  {
    if ns != [] {
      EmailsNoticeTheAddressed(ns[..|ns| - 1], distance);
    }
  }

  /** The records are exactly the records for the addressed entries, in
      order. */
  lemma {:induction false} RecordsRecordTheAddressed(ns: seq<DocumentNotification>, distance: Time -> string)
    ensures |Records(ns, distance)| == |Addressed(ns)|
    ensures forall k :: 0 <= k < |Addressed(ns)| ==>
      Records(ns, distance)[k] == ExpiryRecord(Addressed(ns)[k], distance(Addressed(ns)[k].expiresAt))
  {
    if ns != [] {
      RecordsRecordTheAddressed(ns[..|ns| - 1], distance);
    }
  }

  /** Each e-mail goes to a non-empty address and is matched, position by
      position, by one `document_expiring` record for the user with that
      address, titled "<type> Expiring Soon" and unread. */
  lemma OneRecordPerEmail(ns: seq<DocumentNotification>, distance: Time -> string)
    ensures |Emails(ns, distance)| == |Records(ns, distance)| <= |ns|
    ensures forall k :: 0 <= k < |Emails(ns, distance)| ==>
      && Emails(ns, distance)[k].to != ""
      && Records(ns, distance)[k].userEmail == Emails(ns, distance)[k].to
      && Records(ns, distance)[k].kind == "document_expiring"
      && Records(ns, distance)[k].status == "unread"
      && Records(ns, distance)[k].title == Emails(ns, distance)[k].body.docType + " Expiring Soon"
  {
    EmailsNoticeTheAddressed(ns, distance);
    RecordsRecordTheAddressed(ns, distance);
  }

  /** The e-mails of two lists one after the other are the e-mails of each. */
  lemma {:induction false} EmailsAppend(a: seq<DocumentNotification>, b: seq<DocumentNotification>,
                                        distance: Time -> string)
    ensures Emails(a + b, distance) == Emails(a, distance) + Emails(b, distance)
    decreases |b|
  {
    if b == [] {
      assert a + b == a;
    } else {
      var b' := b[..|b| - 1];
      assert (a + b)[..|a + b| - 1] == a + b';
      assert (a + b)[|a + b| - 1] == b[|b| - 1];
      EmailsAppend(a, b', distance);
    }
  }

  /** The records of two lists one after the other are the records of each. */
  lemma {:induction false} RecordsAppend(a: seq<DocumentNotification>, b: seq<DocumentNotification>,
                                         distance: Time -> string)
    ensures Records(a + b, distance) == Records(a, distance) + Records(b, distance)
    decreases |b|
  {
    if b == [] {
      assert a + b == a;
    } else {
      var b' := b[..|b| - 1];
      assert (a + b)[..|a + b| - 1] == a + b';
      assert (a + b)[|a + b| - 1] == b[|b| - 1];
      RecordsAppend(a, b', distance);
    }
  }

  /** A single entry yields its e-mail and its record when it has an
      address, and nothing otherwise. */
  lemma OneEntry(n: DocumentNotification, distance: Time -> string)
    ensures Emails([n], distance) ==
      if n.subcontractorEmail != "" then [ExpiryEmail(n, distance(n.expiresAt))] else []
    ensures Records([n], distance) ==
      if n.subcontractorEmail != "" then [ExpiryRecord(n, distance(n.expiresAt))] else []
  {
    assert [n][..0] == [];
  }

  /** An entry without an address, wherever it stands in the list, adds no
      e-mail and no record. */
  lemma EntriesWithoutAddressSendNothing(a: seq<DocumentNotification>, n: DocumentNotification,
                                         b: seq<DocumentNotification>, distance: Time -> string)
    requires n.subcontractorEmail == ""
    ensures Emails(a + [n] + b, distance) == Emails(a, distance) + Emails(b, distance)
    ensures Records(a + [n] + b, distance) == Records(a, distance) + Records(b, distance)
  {
    OneEntry(n, distance);
    EmailsAppend(a, [n], distance);
    assert Emails(a + [n], distance) == Emails(a, distance) + [];
    assert Emails(a, distance) + [] == Emails(a, distance);
    EmailsAppend(a + [n], b, distance);
    RecordsAppend(a, [n], distance);
    assert Records(a + [n], distance) == Records(a, distance) + [];
    assert Records(a, distance) + [] == Records(a, distance);
    RecordsAppend(a + [n], b, distance);
  }

  /** An entry with an address, wherever it stands in the list, adds its own
      e-mail and its own record, between those of the entries around it. */
  lemma AddressedEntrySendsItsOwn(a: seq<DocumentNotification>, n: DocumentNotification,
                                  b: seq<DocumentNotification>, distance: Time -> string)
    requires n.subcontractorEmail != ""
    ensures Emails(a + [n] + b, distance) ==
      Emails(a, distance) + [ExpiryEmail(n, distance(n.expiresAt))] + Emails(b, distance)
    ensures Records(a + [n] + b, distance) ==
      Records(a, distance) + [ExpiryRecord(n, distance(n.expiresAt))] + Records(b, distance)
  {
    OneEntry(n, distance);
    EmailsAppend(a + [n], b, distance);
    EmailsAppend(a, [n], distance);
    RecordsAppend(a + [n], b, distance);
    RecordsAppend(a, [n], distance);
  }

  /** When every entry has an address, every entry is acted on. */
  lemma {:induction false} AddressedEntriesAllSent(ns: seq<DocumentNotification>)
    requires forall k :: 0 <= k < |ns| ==> ns[k].subcontractorEmail != ""
    ensures Addressed(ns) == ns
  {
    if ns != [] {
      AddressedEntriesAllSent(ns[..|ns| - 1]);
      assert ns[..|ns| - 1] + [ns[|ns| - 1]] == ns;
    }
  }

  // ---------------------------------------------------------------------------
  // The scan

  /** `ns` is the list the first loop builds from `docs`: one entry per
      examined document, none twice, each built from the document and its
      subcontractor's contact. */
  ghost predicate EntriesOf(ns: seq<DocumentNotification>, docs: map<DocId, Document>, now: Time,
                            contactOf: string -> Contact)
  {
    && (forall i, j :: 0 <= i < j < |ns| ==> ns[i].id != ns[j].id)
    && (forall id :: (id in docs && Examined(docs[id], now)) <==> exists k :: 0 <= k < |ns| && ns[k].id == id)
    && (forall k :: 0 <= k < |ns| ==>
          ns[k].id in docs && Examined(docs[ns[k].id], now)
          && ns[k] == NotificationFor(ns[k].id, docs[ns[k].id], contactOf(docs[ns[k].id].subcontractorId)))
  }

  /** One turn of the first loop, on an examined record: its entry, and the
      `expired` status written when it has zero days or fewer left. */
  method ScanOne(db: Database, id: DocId, now: Time, contactOf: string -> Contact)
    returns (note: DocumentNotification)
    requires db.Valid() && id in db.docs && Examined(db.docs[id], now)
    modifies db
    ensures db.Valid()
    ensures db.docs == old(db.docs)[id := Scanned(old(db.docs)[id], now)]
    ensures db.notifications == old(db.notifications) && db.userEmails == old(db.userEmails)
    ensures note == NotificationFor(id, old(db.docs)[id], contactOf(old(db.docs)[id].subcontractorId))
  {
    var doc := db.docs[id];
    var expiresAt := doc.expiresAt.value;
    var daysUntilExpiration := CeilDiv(expiresAt - now, DayMs);
    ExaminedIsInThresholds(doc, now);
    if InThresholds(daysUntilExpiration) {
      var contact := contactOf(doc.subcontractorId);
      note := DocumentNotification(id, doc.docType, contact.name, contact.email.GetOr(""),
                                   contact.companyName, expiresAt, doc.fileUrl);
    }
    if daysUntilExpiration <= 0 {
      var _ := db.Update(id, doc.(status := Expired), false);
    }
  }

  /** The store part way through the first loop: the records in `done`
      scanned, the others as they were. */
  ghost function ScannedSoFar(docs: map<DocId, Document>, done: seq<DocId>, now: Time): map<DocId, Document> {
    map id | id in docs :: if id in done then Scanned(docs[id], now) else docs[id]
  }

  lemma ScanOneMore(docs: map<DocId, Document>, done: seq<DocId>, id: DocId, now: Time)
    requires id in docs && id !in done
    ensures ScannedSoFar(docs, done + [id], now) == ScannedSoFar(docs, done, now)[id := Scanned(docs[id], now)]
  {
    assert forall x :: x in done + [id] <==> x in done || x == id;
  }

  /** Once every examined record is done, the store is the scanned store:
      the records the query left out are ones a scan leaves unchanged. */
  lemma ScannedAllExamined(docs: map<DocId, Document>, found: seq<DocId>, now: Time)
    requires forall id :: id in found <==> id in docs && Examined(docs[id], now)
    ensures ScannedSoFar(docs, found, now) == ScannedStore(docs, now)
  {
    forall id | id in docs
      ensures ScannedSoFar(docs, found, now)[id] == ScannedStore(docs, now)[id]
    {
      if id !in found {
        assert !Examined(docs[id], now);
      }
    }
  }

  /** The first loop: one entry per examined document, in query order, and
      the `expired` status written for each one at zero days or fewer. */
  method CollectAndExpire(db: Database, now: Time, contactOf: string -> Contact)
    returns (notes: seq<DocumentNotification>)
    requires db.Valid()
    modifies db
    ensures db.Valid()
    ensures db.docs == ScannedStore(old(db.docs), now)
    ensures db.notifications == old(db.notifications) && db.userEmails == old(db.userEmails)
    ensures EntriesOf(notes, old(db.docs), now, contactOf)
  {
    ghost var docs0 := db.docs;
    var found := db.FindMany((d: Document) => Examined(d, now));
    assert forall id :: id in found <==> id in docs0 && Examined(docs0[id], now);
    notes := [];
    var i := 0;
    while i < |found|
      invariant 0 <= i <= |found|
      invariant db.Valid()
      invariant db.docs == ScannedSoFar(docs0, found[..i], now)
      invariant |notes| == i
      invariant forall k :: 0 <= k < i ==>
        notes[k] == NotificationFor(found[k], docs0[found[k]], contactOf(docs0[found[k]].subcontractorId))
      invariant db.notifications == old(db.notifications) && db.userEmails == old(db.userEmails)
    {
      var id := found[i];
      assert id !in found[..i];
      ScanOneMore(docs0, found[..i], id, now);
      var note := ScanOne(db, id, now, contactOf);
      notes := notes + [note];
      assert found[..i + 1] == found[..i] + [id];
      i := i + 1;
    }
    assert found[..i] == found;
    ScannedAllExamined(docs0, found, now);
    forall id | id in docs0 && Examined(docs0[id], now)
      ensures exists k :: 0 <= k < |notes| && notes[k].id == id
    {
      var k :| 0 <= k < |found| && found[k] == id;
      assert notes[k].id == id;
    }
  }

  /** The notification and mail logs after the second loop stopped at entry
      `j` with `err`: the e-mails and records of the entries before `j`, and,
      when the record for `j` could not be linked to a user, its e-mail too. */
  ghost predicate StoppedAt(ns: seq<DocumentNotification>, j: nat, err: ScanError, distance: Time -> string,
                            notifications0: seq<NotificationRecord>, notifications: seq<NotificationRecord>,
                            outbox0: seq<Email>, outbox: seq<Email>)
    requires j < |ns|
  {
    && notifications == notifications0 + Records(ns[..j], distance)
    && outbox == outbox0 + Emails(ns[..j], distance)
                 + (if err.NoSuchUser? then [ExpiryEmail(ns[j], distance(ns[j].expiresAt))] else [])
  }

  /** The logs after one more entry are the logs before it and the
      entry's own e-mail and record. */
  lemma DeliveredOneMore(ns: seq<DocumentNotification>, j: nat, distance: Time -> string)
    requires j < |ns|
    ensures Emails(ns[..j + 1], distance) == Emails(ns[..j], distance) + Emails([ns[j]], distance)
    ensures Records(ns[..j + 1], distance) == Records(ns[..j], distance) + Records([ns[j]], distance)
  {
    assert ns[..j + 1] == ns[..j] + [ns[j]];
    EmailsAppend(ns[..j], [ns[j]], distance);
    RecordsAppend(ns[..j], [ns[j]], distance);
  }

  /** One turn of the second loop: an entry with an address is e-mailed,
      then its notification record is created; a failed send stops before
      the record, and an address no user has stops after the e-mail. */
  method DeliverOne(db: Database, mailer: Notifier, n: DocumentNotification, distance: Time -> string)
    returns (failure: Option<ScanError>)
    requires db.Valid()
    modifies db, mailer
    ensures db.Valid()
    ensures db.docs == old(db.docs)
    ensures db.userEmails == old(db.userEmails) && mailer.failing == old(mailer.failing)
    ensures failure.None? ==>
      && mailer.outbox == old(mailer.outbox) + Emails([n], distance)
      && db.notifications == old(db.notifications) + Records([n], distance)
    ensures failure.Some? ==>
      && n.subcontractorEmail == failure.value.Address() != ""
      && (failure.value.DeliveryFailed? ==> failure.value.to in mailer.failing)
      && (failure.value.NoSuchUser? ==> failure.value.email !in db.userEmails)
      && db.notifications == old(db.notifications)
      && mailer.outbox == old(mailer.outbox)
           + (if failure.value.NoSuchUser? then [ExpiryEmail(n, distance(n.expiresAt))] else [])
  {
    OneEntry(n, distance);
    if n.subcontractorEmail != "" {
      var timeLeft := distance(n.expiresAt);
      var sent := mailer.Send(ExpiryEmail(n, timeLeft));
      if !sent {
        return Some(DeliveryFailed(n.subcontractorEmail));
      }
      var created := db.CreateNotification(ExpiryRecord(n, timeLeft));
      if !created {
        return Some(NoSuchUser(n.subcontractorEmail));
      }
    }
    return None;
  }

  /** The second loop: each entry in turn; the first failure ends the loop. */
  method Deliver(db: Database, mailer: Notifier, notes: seq<DocumentNotification>, distance: Time -> string)
    returns (failure: Option<ScanError>)
    requires db.Valid()
    modifies db, mailer
    ensures db.Valid()
    ensures db.docs == old(db.docs)
    ensures db.userEmails == old(db.userEmails) && mailer.failing == old(mailer.failing)
    ensures failure.None? ==>
      && mailer.outbox == old(mailer.outbox) + Emails(notes, distance)
      && db.notifications == old(db.notifications) + Records(notes, distance)
    ensures failure.Some? ==>
      && (failure.value.DeliveryFailed? ==> failure.value.to in mailer.failing)
      && (failure.value.NoSuchUser? ==> failure.value.email !in db.userEmails)
      && exists j :: 0 <= j < |notes| && notes[j].subcontractorEmail == failure.value.Address() != ""
           && StoppedAt(notes, j, failure.value, distance, old(db.notifications), db.notifications,
                        old(mailer.outbox), mailer.outbox)
  {
    var j := 0;
    while j < |notes|
      invariant 0 <= j <= |notes|
      invariant db.Valid()
      invariant db.docs == old(db.docs)
      invariant mailer.outbox == old(mailer.outbox) + Emails(notes[..j], distance)
      invariant db.notifications == old(db.notifications) + Records(notes[..j], distance)
      invariant db.userEmails == old(db.userEmails) && mailer.failing == old(mailer.failing)
    {
      failure := DeliverOne(db, mailer, notes[j], distance);
      if failure.Some? {
        assert StoppedAt(notes, j, failure.value, distance, old(db.notifications), db.notifications,
                         old(mailer.outbox), mailer.outbox);
        return;
      }
      DeliveredOneMore(notes, j, distance);
      j := j + 1;
    }
    assert notes[..j] == notes;
    return None;
  }

  /** `checkExpiringDocuments`. The status writes all happen in the first
      loop, so whatever the second loop does, the store ends as
      `ScannedStore`. `entries` is the list the first loop builds: the scan
      returns it, or a failed send or an unlinkable record ends the run with
      an error, after the e-mails and records of the entries before the
      failing one. */
  method CheckExpiringDocuments(db: Database, mailer: Notifier, now: Time, contactOf: string -> Contact,
                                distance: Time -> string)
    returns (r: Result<seq<DocumentNotification>, ScanError>, ghost entries: seq<DocumentNotification>)
    requires db.Valid()
    modifies db, mailer
    ensures db.Valid()
    ensures db.docs == ScannedStore(old(db.docs), now)
    ensures db.userEmails == old(db.userEmails) && mailer.failing == old(mailer.failing)
    ensures EntriesOf(entries, old(db.docs), now, contactOf)
    ensures r.Ok? ==>
      && r.value == entries
      && mailer.outbox == old(mailer.outbox) + Emails(entries, distance)
      && db.notifications == old(db.notifications) + Records(entries, distance)
    ensures r.Err? ==>
      && (r.error.DeliveryFailed? ==> r.error.to in mailer.failing)
      && (r.error.NoSuchUser? ==> r.error.email !in db.userEmails)
      && exists j :: 0 <= j < |entries| && entries[j].subcontractorEmail == r.error.Address() != ""
           && StoppedAt(entries, j, r.error, distance, old(db.notifications), db.notifications,
                        old(mailer.outbox), mailer.outbox)
  {
    var notes := CollectAndExpire(db, now, contactOf);
    entries := notes;
    var failure := Deliver(db, mailer, notes, distance);
    if failure.Some? {
      return Err(failure.value), entries;
    }
    return Ok(notes), entries;
  }

  /** A list of entries with distinct ids, all drawn from `ids`, has at most
      `|ids|` entries. */
  lemma {:induction false} DistinctEntriesBounded(ns: seq<DocumentNotification>, ids: set<DocId>)
    requires forall i, j :: 0 <= i < j < |ns| ==> ns[i].id != ns[j].id
    requires forall k :: 0 <= k < |ns| ==> ns[k].id in ids
    ensures |ns| <= |ids|
  {
    if ns != [] {
      var last := ns[|ns| - 1].id;
      DistinctEntriesBounded(ns[..|ns| - 1], ids - {last});
    }
  }

  /** A scan's entries when exactly two documents are examined. */
  lemma TwoExaminedTwoEntries(ns: seq<DocumentNotification>, docs: map<DocId, Document>, now: Time,
                               contactOf: string -> Contact, a: DocId, b: DocId)
    requires a != b && docs.Keys == {a, b}
    requires Examined(docs[a], now) && Examined(docs[b], now)
    requires EntriesOf(ns, docs, now, contactOf)
    ensures |ns| == 2
  {
    var i :| 0 <= i < |ns| && ns[i].id == a;
    var j :| 0 <= j < |ns| && ns[j].id == b;
    assert i != j;
    forall k | 0 <= k < |ns|
      ensures ns[k].id in {a, b}
    {
      var id := ns[k].id;
      assert exists k' :: 0 <= k' < |ns| && ns[k'].id == id;
      assert id in docs && Examined(docs[id], now);
    }
    DistinctEntriesBounded(ns, {a, b});
  }

  /** When every subcontractor has the same non-empty address, every entry
      carries it. */
  lemma EntriesShareTheAddress(ns: seq<DocumentNotification>, docs: map<DocId, Document>, now: Time,
                               contactOf: string -> Contact, address: string)
    requires address != ""
    requires forall s :: contactOf(s).email == Some(address)
    requires EntriesOf(ns, docs, now, contactOf)
    ensures forall k :: 0 <= k < |ns| ==> ns[k].subcontractorEmail == address
  {
    forall k | 0 <= k < |ns|
      ensures ns[k].subcontractorEmail == address
    {
      var doc := docs[ns[k].id];
      assert contactOf(doc.subcontractorId).email == Some(address);
    }
  }

  /** Two documents, one a day overdue and one five days from expiry, in a
      store the scanner is given. */
  method TwoDocumentStore(now: Time, address: string) returns (db: Database, a: DocId, b: DocId)
    ensures fresh(db) && db.Valid() && db.userEmails == {address} && db.notifications == []
    ensures a != b && db.docs.Keys == {a, b}
    ensures db.docs[a].expiresAt == Some(now - DayMs) && db.docs[a].status == Pending
    ensures db.docs[b].expiresAt == Some(now + 5 * DayMs) && db.docs[b].status == Pending
  {
    db := new Database({address});
    var x := db.Create(Document("sub-1", "insurance", "https://files.example/a", Pending,
                                Some(now - DayMs), None, None, EmptyMetadata), false);
    var y := db.Create(Document("sub-1", "license", "https://files.example/b", Pending,
                                Some(now + 5 * DayMs), None, None, EmptyMetadata), false);
    a, b := x.value, y.value;
  }

  /** One scan of the two documents marks the overdue one `expired` and
      leaves the other `pending`. */
  method ScanOverdueAndUpcoming(now: Time, distance: Time -> string) returns (overdue: Status, upcoming: Status)
    ensures overdue == Expired && upcoming == Pending
  {
    var db, a, b := TwoDocumentStore(now, "ops@acme.example");
    var mailer := new Notifier({});
    var contactOf := (id: string) => Contact("Acme Roofing", Some("ops@acme.example"), "Acme");
    var r;
    ghost var found;
    r, found := CheckExpiringDocuments(db, mailer, now, contactOf, distance);
    overdue := db.docs[a].status;
    upcoming := db.docs[b].status;
  }

  /** The same scan notifies about both documents: two entries, two e-mails,
      and no failure, since the subcontractor's address belongs to a user and
      the mail transport accepts it. */
  method ScanNotifiesBoth(now: Time, distance: Time -> string) returns (entries: nat, sent: nat)
    ensures entries == 2 && sent == 2
  {
    var address := "ops@acme.example";
    var db, a, b := TwoDocumentStore(now, address);
    ghost var docs0 := db.docs;
    var mailer := new Notifier({});
    var contactOf := (id: string) => Contact("Acme Roofing", Some(address), "Acme");
    var r;
    ghost var found;
    r, found := CheckExpiringDocuments(db, mailer, now, contactOf, distance);
    EntriesShareTheAddress(found, docs0, now, contactOf, address);
    if r.Err? {
      assert false;
    }
    TwoExaminedTwoEntries(found, docs0, now, contactOf, a, b);
    AddressedEntriesAllSent(found);
    EmailsNoticeTheAddressed(found, distance);
    entries := |r.value|;
    sent := |mailer.outbox|;
  }
}
