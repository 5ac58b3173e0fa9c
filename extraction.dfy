/** What the visa procedures of routers.ts compute apart from the database
    calls: the fields each document type asks the language model for, the
    storage key of an upload, how the model's reply becomes an update, and
    what each procedure leaves in the record and returns. The model's reply
    and the object store's answer are inputs here. */
module Extraction {
  import opened Wrappers
  import opened Text
  import opened Schema
  import opened Errors

  /** `imageType` / `textType`. Only the first three come with an image. */
  datatype DocumentKind = Passport | Flight | Hotel | Additional {
    predicate HasImage() {
      !Additional?
    }

    function Name(): (s: string)
      ensures '/' !in s
    {
      match this
      case Passport => "passport"
      case Flight => "flight"
      case Hotel => "hotel"
      case Additional => "additional"
    }
  }

  /** The properties of the response schema sent with each document type
      (the same for an image and for pasted text). */
  function Fields(kind: DocumentKind): (fields: set<Column>)
    ensures forall c :: c in fields ==> IsManual(c)
    ensures kind == Additional ==> FullNameEnglish in fields && FullNameArabic in fields
  {
    match kind
    case Passport =>
      {PassportNumber, FullNameEnglish, FullNameArabic, Nationality, DateOfBirth,
       PassportIssueDate, PassportExpiryDate, PlaceOfBirth, Gender}
    case Flight =>
      {DepartureDate, ReturnDate, Destination, FlightNumber, BookingReference, Airline}
    case Hotel =>
      {HotelName, HotelAddressEnglish, HotelAddressArabic, HotelPhone, HotelEmail,
       CheckInDate, CheckOutDate, HotelBookingReference}
    case Additional =>
      {FullNameArabic, FullNameEnglish, DestinationCountry, ApplicationDatePlace,
       DepartureDate, DepartureCity, MobileNumber, Email, EmployerName,
       EmployerLocation, MaritalStatus, PreviousSchengenVisa, AddressCity,
       AddressDistrict, AddressStreet, CurrentAddressEnglish, CurrentAddressArabic,
       NationalIdNumber, Occupation, PurposeOfTravel, NumberOfEntries, DurationOfStay}
  }

  /** The column that keeps the uploaded document's URL. */
  function ImageColumn(kind: DocumentKind): (c: Column)
    requires kind.HasImage()
    ensures c in ImageColumns && c !in Fields(kind)
  {
    match kind
    case Passport => PassportImageUrl
    case Flight => FlightTicketImageUrl
    case Hotel => HotelConfirmationImageUrl
  }

  /** Each document type keeps its URL in a column of its own. */
  lemma ImageColumnsDistinct(k1: DocumentKind, k2: DocumentKind)
    requires k1.HasImage() && k2.HasImage()
    ensures ImageColumn(k1) == ImageColumn(k2) <==> k1 == k2
  {
    match k1
    case Passport =>
    case Flight =>
    case Hotel =>
  }

  /** `${mimeType.split('/')[1]}`: the part after the first slash up to the
      next one, or "undefined" when there is no slash. */
  function Extension(mimeType: string): string {
    var parts := Split(mimeType, '/');
    if |parts| >= 2 then parts[1] else "undefined"
  }

  lemma ExtensionOfMimeType(kind: string, subtype: string)
    requires '/' !in kind && '/' !in subtype
    ensures Extension(kind + "/" + subtype) == subtype
  {
    SplitAtSeparator(kind, subtype, '/');
  }

  lemma ExtensionWithoutSlash(mimeType: string)
    requires '/' !in mimeType
    ensures Extension(mimeType) == "undefined"
  {
    SplitWithoutSeparator(mimeType, '/');
  }

  /** The last segment of a storage key; `suffix` is the random part. */
  function FileName(kind: DocumentKind, suffix: string, mimeType: string): string {
    kind.Name() + "-" + suffix + "." + Extension(mimeType)
  }

  /** `visa-docs/${userId}/${imageType}-${randomSuffix}.${fileExtension}` */
  function FileKey(userId: int, kind: DocumentKind, suffix: string, mimeType: string): string {
    "visa-docs" + "/" + IntToString(userId) + "/" + FileName(kind, suffix, mimeType)
  }

  /** The second segment of every key is the uploader's id: each user's
      documents sit in a folder of their own. */
  lemma {:induction false} FileKeyFolder(userId: int, kind: DocumentKind, suffix: string, mimeType: string)
    ensures |Split(FileKey(userId, kind, suffix, mimeType), '/')| >= 2
    ensures Split(FileKey(userId, kind, suffix, mimeType), '/')[1] == IntToString(userId)
  {
    SecondPiece("visa-docs", IntToString(userId), FileName(kind, suffix, mimeType), '/');
  }

  lemma FileKeysSeparateUsers(u1: int, k1: DocumentKind, s1: string, m1: string,
                              u2: int, k2: DocumentKind, s2: string, m2: string)
    requires FileKey(u1, k1, s1, m1) == FileKey(u2, k2, s2, m2)
    ensures u1 == u2
  {
    FileKeyFolder(u1, k1, s1, m1);
    FileKeyFolder(u2, k2, s2, m2);
    IntToStringInjective(u1, u2);
  }

  /** How the document travels with the request: a PDF as a file
      attachment, anything else as an image. */
  datatype Attachment = ImageAttachment(url: string) | PdfAttachment(url: string)

  /** What the model is asked: the properties of the JSON object to return,
      whether each may be null, and the document or pasted text it reads. */
  datatype LlmRequest = LlmRequest(
    properties: set<Column>,
    nullable: bool,
    attachment: Option<Attachment>,
    rawText: Option<string>)

  function ImageRequest(kind: DocumentKind, url: string, mimeType: string): (q: LlmRequest)
    requires kind.HasImage()
    ensures q.properties == Fields(kind) && q.nullable && q.rawText.None?
    ensures q.attachment.Some? && q.attachment.value.url == url
    ensures q.attachment.value.PdfAttachment? <==> mimeType == "application/pdf"
  {
    var doc := if mimeType == "application/pdf" then PdfAttachment(url) else ImageAttachment(url);
    LlmRequest(Fields(kind), true, Some(doc), None)
  }

  function TextRequest(kind: DocumentKind, rawText: string): (q: LlmRequest)
    ensures q.properties == Fields(kind) && !q.nullable
    ensures q.attachment.None? && q.rawText == Some(rawText)
  {
    LlmRequest(Fields(kind), false, None, Some(rawText))
  }

  /** What came back from the model, as far as the procedures tell apart. */
  datatype LlmReply =
    /** invokeLLM threw (no key configured, HTTP error, network) */
    | CallFailed(message: string)
    /** no response or an empty `choices` */
    | NoChoices
    /** the first choice's message is null, or (when `messageIsNull` is
        false) missing altogether */
    | NoMessage(messageIsNull: bool)
    /** the message content is not a string: it is read as "{}" */
    | NonTextContent
    /** JSON.parse refused the content */
    | Unparsable(message: string)
    /** the content parsed to an object with these column values */
    | Parsed(data: map<Column, Option<string>>)

  /** The reply holds only properties of the schema it was asked for, as the
      strict schema demands. */
  predicate KeepsToSchema(reply: LlmReply, kind: DocumentKind) {
    reply.Parsed? ==> reply.data.Keys <= Fields(kind)
  }

  /** The parsed object of a reply that got that far. */
  function ReplyData(reply: LlmReply): map<Column, Option<string>> {
    match reply
    case Parsed(data) => data
    case _ => map[]
  }

  /** The message of the error extractFromImage raises inside its `try`
      before updating, if any. */
  function ImageFailure(reply: LlmReply): (m: Option<string>)
    ensures m.None? <==> reply.Parsed? || reply.NonTextContent?
  {
    match reply
    case CallFailed(message) => Some(message)
    case NoChoices => Some("Invalid LLM response: no choices returned")
    case NoMessage(_) => Some("Invalid LLM response: no message in choice")
    case NonTextContent => None
    case Unparsable(message) => Some(message)
    case Parsed(_) => None
  }

  /** The same for processTextInput, which does not check for a missing
      message and so fails reading its content, naming the value it read. */
  function TextFailure(reply: LlmReply): (m: Option<string>)
    ensures m.None? <==> reply.Parsed? || reply.NonTextContent?
    ensures reply.NoMessage? && reply.messageIsNull ==>
      m == Some("Cannot read properties of null (reading 'content')")
    ensures reply.NoMessage? && !reply.messageIsNull ==>
      m == Some("Cannot read properties of undefined (reading 'content')")
  {
    match reply
    case CallFailed(message) => Some(message)
    case NoChoices => Some("Invalid LLM response")
    case NoMessage(isNull) =>
      if isNull then Some("Cannot read properties of null (reading 'content')")
      else Some("Cannot read properties of undefined (reading 'content')")
    case NonTextContent => None
    case Unparsable(message) => Some(message)
    case Parsed(_) => None
  }

  /** `{ <image column>: url, ...extractedData }` */
  function ImagePatch(kind: DocumentKind, url: string, data: map<Column, Option<string>>): (p: Patch)
    requires kind.HasImage()
    ensures p.status.None? && p.extractionCompleted.None?
    ensures p.values.Keys == data.Keys + {ImageColumn(kind)}
    ensures forall c :: c in data ==> p.values[c] == data[c]
    ensures ImageColumn(kind) !in data ==> p.values[ImageColumn(kind)] == Some(url)
    ensures !p.IsEmpty()
  {
    Patch(map[ImageColumn(kind) := Some(url)] + data, None, None)
  }

  /** An image column is `text`: it keeps any URL as it is. */
  lemma ImageColumnUnlimited(kind: DocumentKind, url: string)
    requires kind.HasImage()
    ensures LengthLimit(ImageColumn(kind)).None?
    ensures Assigned(ImageColumn(kind), Some(url)) == Some(url)
  {
    assert LengthLimit(ImageColumn(kind)).None?;
  }

  /** Writing the extracted values with the URL sets those columns and
      touches no other. */
  lemma ImagePatchApplied(rec: Application, kind: DocumentKind, url: string, data: map<Column, Option<string>>)
    requires kind.HasImage()
    ensures forall c :: c in data ==> Apply(rec, ImagePatch(kind, url, data)).Get(c) == Assigned(c, data[c])
    ensures forall c :: c != ImageColumn(kind) && c !in data ==> Apply(rec, ImagePatch(kind, url, data)).Get(c) == rec.Get(c)
    ensures ImageColumn(kind) !in data ==> Apply(rec, ImagePatch(kind, url, data)).Get(ImageColumn(kind)) == Some(url)
  {
    ImageColumnUnlimited(kind, url);
  }

  /** The update written when extraction failed: the URL alone. */
  function FallbackPatch(kind: DocumentKind, url: string): (p: Patch)
    requires kind.HasImage()
    ensures p.values == map[ImageColumn(kind) := Some(url)]
    ensures p.status.None? && p.extractionCompleted.None?
    ensures Violation(p).None?
  {
    ImageUrlAlwaysFits(ImageColumn(kind), url);
    Patch(map[ImageColumn(kind) := Some(url)], None, None)
  }

  /** The fallback sets the URL and touches no other column. */
  lemma FallbackApplied(rec: Application, kind: DocumentKind, url: string)
    requires kind.HasImage()
    ensures Apply(rec, FallbackPatch(kind, url)).Get(ImageColumn(kind)) == Some(url)
    ensures forall c :: c != ImageColumn(kind) ==> Apply(rec, FallbackPatch(kind, url)).Get(c) == rec.Get(c)
  {
    ImageColumnUnlimited(kind, url);
  }

  /** The parsed object, without the two name properties for the
      "additional" type so that it cannot overwrite the passport's names. */
  function TextPatch(kind: DocumentKind, data: map<Column, Option<string>>): (p: Patch)
    ensures p.status.None? && p.extractionCompleted.None?
    ensures kind == Additional ==> FullNameEnglish !in p.values && FullNameArabic !in p.values
    ensures forall c :: c in data && (kind != Additional || (c != FullNameEnglish && c != FullNameArabic))
              ==> c in p.values && p.values[c] == data[c]
    ensures p.values.Keys <= data.Keys
  {
    if kind == Additional then Patch(data - {FullNameEnglish, FullNameArabic}, None, None)
    else Patch(data, None, None)
  }

  /** The validated input of updateManualFields: each of the 42 editable
      fields, when present, is set to its string; any other key is dropped
      by the input schema. */
  function ManualPatch(fields: map<Column, string>): (p: Patch)
    ensures p.status.None? && p.extractionCompleted.None?
    ensures forall c :: c in p.values <==> c in fields && IsManual(c)
    ensures forall c :: c in p.values ==> p.values[c] == Some(fields[c])
  {
    Patch(map c | c in fields && IsManual(c) :: Some(fields[c]), None, None)
  }

  /** `{ status: "completed", extractionCompleted: true }` */
  const CompletePatch: Patch := Patch(map[], Some(Completed), Some(true))

  /** The record a procedure leaves behind and what it answers. */
  datatype Outcome = Outcome(after: Application, result: Result<Option<Application>, ApiError>)

  /** extractFromImage once the document is stored at `url`: the extracted
      values and the URL on success; otherwise the URL alone is saved and
      the error is reported as "Failed to extract data: ...". */
  function ImageEffect(rec: Application, kind: DocumentKind, url: string, reply: LlmReply): (o: Outcome)
    requires kind.HasImage()
    ensures o.after.id == rec.id && o.after.userId == rec.userId
    ensures o.after.status == rec.status && o.after.extractionCompleted == rec.extractionCompleted
    ensures o.result.Ok? ==> o.result == Ok(Some(o.after))
    ensures o.result.Ok? <==> ImageFailure(reply).None? && forall c :: c in ReplyData(reply) ==> Fits(c, ReplyData(reply)[c])
    ensures o.result.Ok? ==> forall c :: c in ReplyData(reply) ==> o.after.Get(c) == Assigned(c, ReplyData(reply)[c])
    ensures o.result.Err? ==> o.result.error.ExtractionFailed?
    ensures ImageFailure(reply).Some? ==> o.result == Err(ExtractionFailed(ImageFailure(reply).value))
    ensures ImageFailure(reply).None? && o.result.Err? ==>
      exists c :: c in ReplyData(reply) && !Fits(c, ReplyData(reply)[c])
                  && o.result == Err(ExtractionFailed(ValueTooLong(LengthLimit(c).value).Message()))
    ensures o.result.Err? ==> forall c :: c != ImageColumn(kind) ==> o.after.Get(c) == rec.Get(c)
    ensures forall c :: c != ImageColumn(kind) && c !in ReplyData(reply) ==> o.after.Get(c) == rec.Get(c)
    ensures KeepsToSchema(reply, kind) ==> o.after.Get(ImageColumn(kind)) == Some(url)
  {
    FallbackApplied(rec, kind, url);
    ImagePatchApplied(rec, kind, url, ReplyData(reply));
    var fallback := Apply(rec, FallbackPatch(kind, url));
    var cause := ImageFailure(reply);
    if cause.Some? then
      Outcome(fallback, Err(ExtractionFailed(cause.value)))
    else
      var p := ImagePatch(kind, url, ReplyData(reply));
      ViolationIffTooLong(p);
      match Violation(p)
      case Some(limit) =>
        ViolationNamesTooLong(p);
        ImageColumnUnlimited(kind, url);
        Outcome(fallback, Err(ExtractionFailed(ValueTooLong(limit).Message())))
      case None => Outcome(Apply(rec, p), Ok(Some(Apply(rec, p))))
  }

  /** processTextInput once the record is found: the extracted values on
      success, nothing written otherwise. A reply with nothing left to write
      fails with "No values to set". */
  function TextEffect(rec: Application, kind: DocumentKind, reply: LlmReply): (o: Outcome)
    ensures o.after.id == rec.id && o.after.userId == rec.userId
    ensures o.after.status == rec.status && o.after.extractionCompleted == rec.extractionCompleted
    ensures o.result.Ok? ==> o.result == Ok(Some(o.after))
    ensures o.result.Err? ==> o.after == rec && o.result.error.TextProcessingFailed?
    ensures TextFailure(reply).Some? ==> o.result == Err(TextProcessingFailed(TextFailure(reply).value))
    ensures TextFailure(reply).None? && TextPatch(kind, ReplyData(reply)).IsEmpty() ==>
      o.result == Err(TextProcessingFailed(NoValuesToSet.Message()))
    ensures TextFailure(reply).None? && !TextPatch(kind, ReplyData(reply)).IsEmpty() && o.result.Err? ==>
      var p := TextPatch(kind, ReplyData(reply));
      exists c :: c in p.values && !Fits(c, p.values[c])
                  && o.result == Err(TextProcessingFailed(ValueTooLong(LengthLimit(c).value).Message()))
    ensures o.result.Ok? ==> forall c :: c in ReplyData(reply) && (kind != Additional || (c != FullNameEnglish && c != FullNameArabic))
                                 ==> o.after.Get(c) == Assigned(c, ReplyData(reply)[c])
    ensures forall c :: c !in ReplyData(reply) ==> o.after.Get(c) == rec.Get(c)
  {
    match TextFailure(reply)
    case Some(cause) => Outcome(rec, Err(TextProcessingFailed(cause)))
    case None =>
      var p := TextPatch(kind, ReplyData(reply));
      if p.IsEmpty() then Outcome(rec, Err(TextProcessingFailed(NoValuesToSet.Message())))
      else match Violation(p)
      case Some(limit) =>
        ViolationNamesTooLong(p);
        Outcome(rec, Err(TextProcessingFailed(ValueTooLong(limit).Message())))
      case None => Outcome(Apply(rec, p), Ok(Some(Apply(rec, p))))
  }

  /** Pasted "additional" text never changes the names taken from the passport. */
  lemma AdditionalKeepsNames(rec: Application, reply: LlmReply)
    ensures TextEffect(rec, Additional, reply).after.Get(FullNameEnglish) == rec.Get(FullNameEnglish)
    ensures TextEffect(rec, Additional, reply).after.Get(FullNameArabic) == rec.Get(FullNameArabic)
  {
    match TextFailure(reply)
    case Some(_) =>
    case None =>
      var p := TextPatch(Additional, ReplyData(reply));
      assert FullNameEnglish !in p.values && FullNameArabic !in p.values;
  }

  /** Text extraction succeeds exactly when the model answered with
      something to write and every value fits its column. */
  lemma TextSucceedsIffFits(rec: Application, kind: DocumentKind, reply: LlmReply)
    ensures TextEffect(rec, kind, reply).result.Ok? <==>
      && TextFailure(reply).None?
      && !TextPatch(kind, ReplyData(reply)).IsEmpty()
      && forall c :: c in TextPatch(kind, ReplyData(reply)).values ==>
           Fits(c, TextPatch(kind, ReplyData(reply)).values[c])
  {
    ViolationIffTooLong(TextPatch(kind, ReplyData(reply)));
  }

  /** updateManualFields once the record is found. Without a single
      editable field there is nothing to set, and the update is refused. */
  function ManualEffect(rec: Application, fields: map<Column, string>): (o: Outcome)
    ensures o.after.status == rec.status && o.after.extractionCompleted == rec.extractionCompleted
    ensures forall c :: c in ImageColumns ==> o.after.Get(c) == rec.Get(c)
    ensures o.result.Ok? ==> o.result == Ok(Some(o.after))
    ensures o.result.Ok? ==> forall c :: c in fields && IsManual(c) ==> o.after.Get(c) == Assigned(c, Some(fields[c]))
    ensures o.result.Ok? ==> forall c :: c !in fields ==> o.after.Get(c) == rec.Get(c)
    ensures o.result.Err? ==> o.after == rec && (o.result.error.ValueTooLong? || o.result.error.NoValuesToSet?)
    ensures (forall c :: c in fields ==> !IsManual(c)) ==> o.result == Err(NoValuesToSet)
    ensures o.result.Err? && o.result.error.ValueTooLong? ==>
      exists c :: c in fields && IsManual(c) && !Fits(c, Some(fields[c])) && LengthLimit(c) == Some(o.result.error.limit)
    ensures o.result.Err? <==>
      || (forall c :: c in fields ==> !IsManual(c))
      || exists c :: c in fields && IsManual(c) && !Fits(c, Some(fields[c]))
  {
    var p := ManualPatch(fields);
    ViolationIffTooLong(p);
    if p.IsEmpty() then Outcome(rec, Err(NoValuesToSet))
    else match Violation(p)
    case Some(limit) =>
      ViolationNamesTooLong(p);
      Outcome(rec, Err(ValueTooLong(limit)))
    case None => Outcome(Apply(rec, p), Ok(Some(Apply(rec, p))))
  }

  /** markCompleted once the record is found. */
  function CompleteEffect(rec: Application): (o: Outcome)
    ensures o.after.status == Completed && o.after.extractionCompleted
    ensures forall c :: o.after.Get(c) == rec.Get(c)
    ensures o.result == Ok(Some(o.after))
  {
    assert Violation(CompletePatch).None?;
    Outcome(Apply(rec, CompletePatch), Ok(Some(Apply(rec, CompletePatch))))
  }

  /** Marking an application completed twice is the same as once. */
  lemma CompleteIdempotent(rec: Application)
    ensures CompleteEffect(CompleteEffect(rec).after) == CompleteEffect(rec)
  {
    var once := CompleteEffect(rec).after;
    assert once.values + CompletePatch.values == once.values;
  }
}
