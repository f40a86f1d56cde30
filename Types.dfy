/** Value types of the compliance-document lifecycle: document types and
    statuses, verification-history entries, document metadata and the stored
    document record, plus the small wrappers the other modules share. */
module Types {

  datatype Option<+T> = None | Some(value: T) {
    function GetOr(default: T): T {
      match this
      case Some(v) => v
      case None => default
    }
  }

  datatype Result<+T, +E> = Ok(value: T) | Err(error: E)

  /** Milliseconds since the epoch, as returned by `Date.getTime()`. */
  type Time = int

  /** One day in milliseconds (1000 * 60 * 60 * 24). */
  const DayMs: int := 1000 * 60 * 60 * 24

  /** The record store's opaque document id. */
  type DocId = nat

  /** JavaScript truthiness of an optional request field: present and not "". */
  predicate Truthy(s: Option<string>) {
    s.Some? && s.value != ""
  }

  /** The rule both upload checks apply to `expiresAt`: an absent (or empty)
      value passes; a present one must parse to a time not before `now`. */
  predicate ExpiryAcceptable(expiresAt: Option<string>, now: Time, parseDate: string -> Option<Time>) {
    Truthy(expiresAt) ==> parseDate(expiresAt.value).Some? && parseDate(expiresAt.value).value >= now
  }

  // ---------------------------------------------------------------------------
  // DocumentType

  datatype DocumentType = Insurance | License | Certification | Contract | OtherDocument

  function TypeName(t: DocumentType): string {
    match t
    case Insurance => "insurance"
    case License => "license"
    case Certification => "certification"
    case Contract => "contract"
    case OtherDocument => "other"
  }

  /** The list reported as `validTypes` by every type check. */
  const ValidTypeNames: seq<string> := ["insurance", "license", "certification", "contract", "other"]

  function ParseDocumentType(s: string): (r: Option<DocumentType>)
    ensures r.Some? <==> s in ValidTypeNames
    ensures r.Some? ==> TypeName(r.value) == s
  {
    if s == "insurance" then Some(Insurance)
    else if s == "license" then Some(License)
    else if s == "certification" then Some(Certification)
    else if s == "contract" then Some(Contract)
    else if s == "other" then Some(OtherDocument)
    else None
  }

  /** The five type names are exactly the names of the five document types. */
  lemma ValidTypeNamesAreTypeNames(s: string)
    ensures s in ValidTypeNames <==> exists t :: TypeName(t) == s
  {
    if s in ValidTypeNames {
      assert TypeName(ParseDocumentType(s).value) == s;
    }
  }

  lemma TypeNameRoundTrip(t: DocumentType)
    ensures ParseDocumentType(TypeName(t)) == Some(t)
  {
  }

  // ---------------------------------------------------------------------------
  // Status

  /** The status stored in a document record. The declared `DocumentStatus`
      union has only the first four; the expiration scanner writes `expired`,
      the legacy verify endpoint accepts `verified`, and the legacy create and
      update endpoints store whatever string they are given (`Unlisted`). */
  datatype Status = Pending | Approved | Rejected | PendingRevision | Expired | Verified | Unlisted(name: string)

  function StatusName(st: Status): string {
    match st
    case Pending => "pending"
    case Approved => "approved"
    case Rejected => "rejected"
    case PendingRevision => "pending_revision"
    case Expired => "expired"
    case Verified => "verified"
    case Unlisted(name) => name
  }

  const KnownStatusNames: seq<string> := ["pending", "approved", "rejected", "pending_revision", "expired", "verified"]

  /** The status a stored string denotes. */
  function ParseStatus(s: string): (st: Status)
    ensures StatusName(st) == s
    ensures st.Unlisted? <==> s !in KnownStatusNames
  {
    if s == "pending" then Pending
    else if s == "approved" then Approved
    else if s == "rejected" then Rejected
    else if s == "pending_revision" then PendingRevision
    else if s == "expired" then Expired
    else if s == "verified" then Verified
    else Unlisted(s)
  }

  /** `Unlisted` never spells one of the named statuses. */
  predicate Canonical(st: Status) {
    st.Unlisted? ==> st.name !in KnownStatusNames
  }

  lemma StatusRoundTrip(st: Status)
    requires Canonical(st)
    ensures ParseStatus(StatusName(st)) == st
  {
  }

  /** Membership in the declared `DocumentStatus` union. */
  predicate IsDocumentStatus(st: Status) {
    st == Pending || st == Approved || st == Rejected || st == PendingRevision
  }

  /** The declared union lacks the status the scanner writes. */
  lemma ExpiredIsNotADocumentStatus()
    ensures !IsDocumentStatus(Expired) && !IsDocumentStatus(Verified)
  {
  }

  // ---------------------------------------------------------------------------
  // Verification history and metadata

  datatype HistoryEntry = HistoryEntry(status: Status, verifiedBy: string, date: Time, notes: Option<string>)

  /** The `verificationHistory` metadata key: absent, an array of entries, or
      some other JSON value. */
  datatype HistoryValue = NoHistory | Entries(entries: seq<HistoryEntry>) | NotAList

  /** The entries a history value stands for; anything but an array is empty. */
  function History(h: HistoryValue): seq<HistoryEntry> {
    if h.Entries? then h.entries else []
  }

  /** The metadata object of a document; `extra` holds every key this model
      does not name, which verification passes through unchanged. */
  datatype Metadata = Metadata(
    originalName: Option<string>,
    size: Option<nat>,
    mimeType: Option<string>,
    key: Option<string>,
    bucket: Option<string>,
    lastVerifiedAt: Option<Time>,
    history: HistoryValue,
    extra: map<string, string>)

  /** A null metadata column, read as `{}`. */
  const EmptyMetadata: Metadata := Metadata(None, None, None, None, None, None, NoHistory, map[])

  // ---------------------------------------------------------------------------
  // The stored record

  datatype Document = Document(
    subcontractorId: string,
    docType: string,
    fileUrl: string,
    status: Status,
    expiresAt: Option<Time>,
    verifiedBy: Option<string>,
    verificationDate: Option<Time>,
    metadata: Metadata)

  /** The refusal test of both verify endpoints: an expiry strictly before
      `now`, whatever the stored status. */
  predicate PastExpiry(doc: Document, now: Time) {
    doc.expiresAt.Some? && doc.expiresAt.value < now
  }

  /** The `findFirst({ id, subcontractorId })` lookup: the record exists and
      belongs to that subcontractor. */
  predicate Owns(docs: map<DocId, Document>, id: DocId, subcontractorId: string) {
    id in docs && docs[id].subcontractorId == subcontractorId
  }
}
