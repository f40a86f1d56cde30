/** The request validators of the document API: accept/reject decisions over
    the request fields. Each produces exactly one outcome, either passing the
    request on (`Next`) or a 400 response naming the first failed rule. */
module Validation {
  import opened Types

  datatype Rejection =
    | InvalidDocumentType(validTypes: seq<string>)
    | InvalidDateFormat
    | DateInPast
    | MissingFields(required: seq<string>)
    | InvalidStatus(validStatuses: seq<string>)
    | BlankVerifier
    | MissingParameters(required: seq<string>)

  datatype Outcome = Next | Respond(rejection: Rejection)

  /** The statuses this validator accepts; unlike the verify route it
      includes `pending`. */
  const ValidStatusNames: seq<string> := ["pending", "approved", "rejected", "pending_revision"]

  /** The characters `String.prototype.trim` removes: white space and line
      terminators. */
  predicate IsTrimmed(c: char) {
    || c == ' ' || c == '\t' || c == '\n' || c == '\r' || c == '\U{B}' || c == '\U{C}'
    || c == '\U{A0}' || c == '\U{1680}' || ('\U{2000}' <= c <= '\U{200A}')
    || c == '\U{2028}' || c == '\U{2029}' || c == '\U{202F}' || c == '\U{205F}'
    || c == '\U{3000}' || c == '\U{FEFF}'
  }

  /** `!s.trim()`: nothing is left after trimming. */
  predicate IsBlank(s: string) {
    forall i :: 0 <= i < |s| ==> IsTrimmed(s[i])
  }

  function ValidateDocumentUpload(docType: Option<string>, expiresAt: Option<string>, now: Time,
                                  parseDate: string -> Option<Time>): (r: Outcome)
    ensures r == Next <==>
      Truthy(docType) && docType.value in ValidTypeNames && ExpiryAcceptable(expiresAt, now, parseDate)
    ensures r == Respond(InvalidDocumentType(ValidTypeNames)) <==>
      !Truthy(docType) || docType.value !in ValidTypeNames
    ensures r == Respond(InvalidDateFormat) <==>
      Truthy(docType) && docType.value in ValidTypeNames && Truthy(expiresAt) && parseDate(expiresAt.value).None?
    ensures r == Respond(DateInPast) <==>
      Truthy(docType) && docType.value in ValidTypeNames && Truthy(expiresAt)
      && parseDate(expiresAt.value).Some? && parseDate(expiresAt.value).value < now
  {
    if !Truthy(docType) || docType.value !in ValidTypeNames then
      Respond(InvalidDocumentType(ValidTypeNames))
    else if Truthy(expiresAt) then
      match parseDate(expiresAt.value)
      case None => Respond(InvalidDateFormat)
      case Some(t) => if t < now then Respond(DateInPast) else Next
    else
      Next
  }

  /** An expiry equal to the current instant is not in the past. */
  lemma UploadAcceptsExpiryAtNow(docType: string, expiresAt: string, now: Time, parseDate: string -> Option<Time>)
    requires docType in ValidTypeNames && expiresAt != ""
    requires parseDate(expiresAt) == Some(now)
    ensures ValidateDocumentUpload(Some(docType), Some(expiresAt), now, parseDate) == Next
  {
  }

  function ValidateDocumentVerification(status: Option<string>, verifiedBy: Option<string>): (r: Outcome)
    ensures r == Next <==>
      Truthy(status) && Truthy(verifiedBy) && status.value in ValidStatusNames && !IsBlank(verifiedBy.value)
    ensures r == Respond(MissingFields(["status", "verifiedBy"])) <==> !Truthy(status) || !Truthy(verifiedBy)
    ensures r == Respond(InvalidStatus(ValidStatusNames)) <==>
      Truthy(status) && Truthy(verifiedBy) && status.value !in ValidStatusNames
    ensures r == Respond(BlankVerifier) <==>
      Truthy(status) && Truthy(verifiedBy) && status.value in ValidStatusNames && IsBlank(verifiedBy.value)
  {
    if !Truthy(status) || !Truthy(verifiedBy) then
      Respond(MissingFields(["status", "verifiedBy"]))
    else if status.value !in ValidStatusNames then
      Respond(InvalidStatus(ValidStatusNames))
    else if IsBlank(verifiedBy.value) then
      Respond(BlankVerifier)
    else
      Next
  }

  /** The accepted status names are exactly the declared `DocumentStatus`
      union, so `expired` and `verified` are refused here. */
  lemma VerificationStatusesAreDocumentStatuses(s: string)
    ensures s in ValidStatusNames <==> IsDocumentStatus(ParseStatus(s))
  {
  }

  /** A verifier consisting only of white space is refused, but only once
      the status has been accepted. */
  lemma BlankVerifierRejected(status: string, verifiedBy: string)
    requires status in ValidStatusNames && verifiedBy != ""
    requires forall i :: 0 <= i < |verifiedBy| ==> verifiedBy[i] == ' '
    ensures ValidateDocumentVerification(Some(status), Some(verifiedBy)) == Respond(BlankVerifier)
  {
  }

  function ValidateDocumentAccess(subcontractorId: Option<string>, documentId: Option<string>): (r: Outcome)
    ensures r == Next <==> Truthy(subcontractorId) && Truthy(documentId)
    ensures r != Next ==> r == Respond(MissingParameters(["subcontractorId", "documentId"]))
  {
    if !Truthy(subcontractorId) || !Truthy(documentId) then
      Respond(MissingParameters(["subcontractorId", "documentId"]))
    else
      Next
  }
}
