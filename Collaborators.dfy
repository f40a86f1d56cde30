/** The external collaborators the document lifecycle talks to, stated as
    classes over abstract state: the record store (the document and
    notification tables), the blob store holding uploaded files, and the
    e-mail notifier. Each operation that can fail in the real system takes or
    consults an explicit fault input. */
module Collaborators {
  import opened Types

  // ---------------------------------------------------------------------------
  // Record store

  /** A persisted in-app notification, linked to the user with `userEmail`. */
  datatype NotificationRecord = NotificationRecord(
    kind: string,
    title: string,
    message: string,
    status: string,
    userEmail: string)

  class Database {
    var docs: map<DocId, Document>
    var notifications: seq<NotificationRecord>
    /** E-mail addresses of the registered users. */
    var userEmails: set<string>
    /** The next id `Create` hands out. */
    var nextId: nat

    ghost predicate Valid()
      reads this
    {
      forall id :: id in docs ==> id < nextId
    }

    constructor (users: set<string>)
      ensures Valid()
      ensures docs == map[] && notifications == [] && userEmails == users
    {
      docs := map[];
      notifications := [];
      userEmails := users;
      nextId := 0;
    }

    /** Inserts a record under a fresh id, unless the store fails. */
    method Create(doc: Document, fails: bool) returns (id: Option<DocId>)
      requires Valid()
      modifies this
      ensures Valid()
      ensures id.Some? <==> !fails
      ensures id.Some? ==> id.value !in old(docs) && docs == old(docs)[id.value := doc]
      ensures id.None? ==> docs == old(docs)
      ensures notifications == old(notifications) && userEmails == old(userEmails)
    {
      if fails {
        id := None;
      } else {
        id := Some(nextId);
        docs := docs[nextId := doc];
        nextId := nextId + 1;
      }
    }

    /** Replaces an existing record, unless the store fails. */
    method Update(id: DocId, doc: Document, fails: bool) returns (ok: bool)
      requires Valid() && id in docs
      modifies this
      ensures Valid()
      ensures ok == !fails
      ensures docs == if ok then old(docs)[id := doc] else old(docs)
      ensures notifications == old(notifications) && userEmails == old(userEmails)
    {
      ok := !fails;
      if ok {
        docs := docs[id := doc];
      }
    }

    /** Removes an existing record, unless the store fails. */
    method Delete(id: DocId, fails: bool) returns (ok: bool)
      requires Valid() && id in docs
      modifies this
      ensures Valid()
      ensures ok == !fails
      ensures docs == if ok then old(docs) - {id} else old(docs)
      ensures notifications == old(notifications) && userEmails == old(userEmails)
    {
      ok := !fails;
      if ok {
        docs := docs - {id};
      }
    }

    /** `findMany({ where })`: the ids of the records satisfying `where`, each
        once, in the store's own (unspecified) order. */
    method FindMany(where: Document -> bool) returns (ids: seq<DocId>)
      ensures forall i, j :: 0 <= i < j < |ids| ==> ids[i] != ids[j]
      ensures forall id :: id in ids <==> id in docs && where(docs[id])
    {
      ids := [];
      var rest := docs.Keys;
      while rest != {}
        invariant rest <= docs.Keys
        invariant forall i, j :: 0 <= i < j < |ids| ==> ids[i] != ids[j]
        invariant forall id :: id in ids <==> id in docs && id !in rest && where(docs[id])
        decreases rest
      {
        var id :| id in rest;
        if where(docs[id]) {
          ids := ids + [id];
        }
        rest := rest - {id};
      }
    }

    /** Creates a notification record connected to the user with that
        address; the connect fails when there is no such user. */
    method CreateNotification(rec: NotificationRecord) returns (ok: bool)
      requires Valid()
      modifies this
      ensures Valid()
      ensures ok == (rec.userEmail in userEmails)
      ensures notifications == if ok then old(notifications) + [rec] else old(notifications)
      ensures docs == old(docs) && userEmails == old(userEmails)
    {
      ok := rec.userEmail in userEmails;
      if ok {
        notifications := notifications + [rec];
      }
    }
  }

  // ---------------------------------------------------------------------------
  // Blob store

  /** An object in the blob store, addressed by bucket and key. */
  datatype BlobRef = BlobRef(bucket: string, key: string)

  class BlobStore {
    /** The configured bucket every upload goes to. */
    const bucket: string
    /** The public URL prefix of the bucket; an object's location is this
        prefix followed by its key. */
    const baseUrl: string
    var objects: set<BlobRef>

    constructor (bucket: string, baseUrl: string)
      ensures this.bucket == bucket && this.baseUrl == baseUrl && objects == {}
    {
      this.bucket := bucket;
      this.baseUrl := baseUrl;
      objects := {};
    }

    function Location(key: string): string {
      baseUrl + key
    }

    /** Stores an object under `key` in the configured bucket (overwriting
        any object with that key), unless the store fails. */
    method Put(key: string, fails: bool) returns (ok: bool)
      modifies this
      ensures ok == !fails
      ensures objects == if ok then old(objects) + {BlobRef(bucket, key)} else old(objects)
    {
      ok := !fails;
      if ok {
        objects := objects + {BlobRef(bucket, key)};
      }
    }

    /** Deletes an object, unless the store fails. */
    method Delete(ref: BlobRef, fails: bool) returns (ok: bool)
      modifies this
      ensures ok == !fails
      ensures objects == if ok then old(objects) - {ref} else old(objects)
    {
      ok := !fails;
      if ok {
        objects := objects - {ref};
      }
    }
  }

  // ---------------------------------------------------------------------------
  // Notifier

  /** The HTML body of an expiration notice, kept as the values it
      interpolates rather than as markup. */
  datatype ExpiryNotice = ExpiryNotice(
    subcontractorName: string,
    docType: string,
    companyName: string,
    timeLeft: string,
    fileUrl: string)

  datatype Email = Email(to: string, subject: string, body: ExpiryNotice)

  class Notifier {
    var outbox: seq<Email>
    /** Recipients to which delivery currently fails. */
    var failing: set<string>

    constructor (failing: set<string>)
      ensures outbox == [] && this.failing == failing
    {
      outbox := [];
      this.failing := failing;
    }

    method Send(email: Email) returns (ok: bool)
      modifies this
      ensures ok == (email.to !in failing)
      ensures outbox == if ok then old(outbox) + [email] else old(outbox)
      ensures failing == old(failing)
    {
      ok := email.to !in failing;
      if ok {
        outbox := outbox + [email];
      }
    }
  }
}
