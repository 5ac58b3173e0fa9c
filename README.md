# Schengen visa extractor — a Dafny model

This project models the core of the Schengen visa extractor. A signed-in user
builds a visa application from four documents: passport, flight ticket, hotel
confirmation, and pasted "additional" text. A language model reads each
document and fills in the application's columns. The user corrects the fields
by hand and exports a PDF.

The model covers these parts:

- **Data model** (`schema.dfy`, `errors.dfy`, `wrappers.dfy`). The two tables
  of `drizzle/schema.ts`:
  - `users`;
  - `visa_applications`, with its 45 nullable text columns, their `varchar`
    limits, and the status enum.

  Also the errors the server raises, with their exact messages.
- **Data access** (`db.dfy`). `server/src/db.ts` is the class
  `Db.Database`, which holds both tables and their id sequences. Each method:
  - fails when there is no connection, except `upsertUser` and
    `getUserByOpenId`, which then do nothing;
  - changes only what the SQL statement changes;
  - states the new state in full.

  `GetUserApplications` is proved to return exactly the user's rows,
  newest first.
- **Procedures** (`extraction.dfy`, `router.dfy`). The `visa.*` procedures
  of `routers.ts`:
  - the ownership gate every procedure passes through;
  - the storage key of an upload;
  - the request sent to the language model;
  - how its reply becomes an update;
  - what each procedure leaves in the record and what it returns.

  The model's reply and the object store's answer are parameters.
- **PDF export** (`pdf_export.dfy`). `generateVisaPDF`: the four label/value
  tables, the page each heading lands on, the footers, and the file name.
- **Intake page** (`intake_wizard.dfy`). `NewApplication.tsx` as a class
  whose handlers update its state.
- **Application page** (`edit_form.dfy`). `ViewApplication.tsx`: parsing
  the route id, the edit form, save, reload, and download.
- **Helpers** (`text.dfy`). Printing numbers and reading the digits back, `split`, and
  `trim`, with the properties the modules above rely on.

The model follows the code on these points, some of which its documentation does not mention:

- An update never changes `updatedAt`. The column has only a default and no
  update hook.
- In `upsertUser` the users id sequence advances on a conflict as well.
  PostgreSQL draws the id before it finds the conflict.
- The flight heading of the PDF has no page-break check, unlike the hotel
  and additional headings.
- In `processTextInput`, a reply whose first choice has no message fails
  with JavaScript's own `TypeError` message, which names `null` or
  `undefined`. `extractFromImage` checks for this case and raises its own
  message.
- An update with nothing to set fails with "No values to set". Drizzle
  refuses it before any statement reaches the database. This happens when
  `updateManualFields` gets no field, or when pasted text yields nothing
  left to write.
- A value longer than its `varchar(n)` column is accepted when everything
  past the `n`-th character is a space. PostgreSQL then stores the first
  `n` characters.
- The route id is read by `parseInt` without a radix. So "0x" or "0X"
  after the sign starts a hexadecimal number.

## Model

| member | source | states |
|---|---|---|
| Schema.ColumnAtPosition | drizzle/schema.ts:30-95 | the column at a column's position is that column |
| Schema.PositionOfColumnAt | drizzle/schema.ts:30-95 | the column at a position has that position; with ColumnAtPosition, table order pairs the 45 columns one-to-one with positions 0 to 44 |
| Schema.NewRow | drizzle/schema.ts:30-95 | a new row has the given owner, status and flag, every text column NULL, and respects all column limits |
| Schema.Assigned | drizzle/schema.ts:35-87 | the value a column stores: NULL stays NULL; a value within the length is stored as it is; an accepted longer value is cut to the length, losing only spaces |
| Schema.Apply | server/src/db.ts:101-107 | an UPDATE sets exactly the supplied columns (status and flag too), each to the value the column stores; it keeps every other column, the id, the owner and both timestamps |
| Schema.FirstTooLong | drizzle/schema.ts:35-87 | finds a too-long value exactly when some supplied column from that position on does not fit its varchar limit |
| Schema.ViolationIffTooLong | drizzle/schema.ts:35-87 | the database accepts an update exactly when every supplied value fits its column: it is within the varchar length, or only spaces lie past it |
| Schema.ViolationNamesTooLong | drizzle/schema.ts:35-87 | the limit a refused update reports is that of a supplied value that does not fit its column |
| Schema.ApplyKeepsLimits | drizzle/schema.ts:35-87 | an accepted update keeps a row within every column limit |
| Schema.ImageUrlAlwaysFits | drizzle/schema.ts:36-56 | the three image URL columns are `text`, so an update of one of them alone is always accepted |
| Schema.Position | drizzle/schema.ts:30-95 | every column has a position below the column count |
| Db.InsertNewestFirst | server/src/db.ts:117-122 | inserting a row into a newest-first list keeps it newest first and adds exactly that row |
| Db.UpsertValues | server/src/db.ts:33-61 | the insert values carry openId and the three text fields; role is the given one, else admin exactly for a non-empty owner openId, else unset; lastSignedIn defaults to now |
| Db.Overwritten | server/src/db.ts:40-47 | an undefined property keeps the stored value, null clears it, and a string replaces it |
| Db.Database.constructor | server/src/db.ts:9-19 | empty tables with both sequences at 1, with or without a connection |
| Db.Database.CreateApplication | server/src/db.ts:93-99 | without a connection, "Database not available" and no change; otherwise the new row under the next id, returned as stored |
| Db.Database.UpdateApplication | server/src/db.ts:101-107 | without a connection an error; a patch with nothing to set fails with "No values to set"; an unknown id gives no row and no change; a too-long value fails with the column's limit and no change; otherwise the row becomes Apply(row, patch) and is returned |
| Db.Database.GetApplicationById | server/src/db.ts:109-115 | the row with that id if there is one, none otherwise; an error without a connection |
| Db.Database.GetUserApplications | server/src/db.ts:117-122 | exactly the user's rows, each once, ordered by createdAt descending |
| Db.Database.DeleteApplication | server/src/db.ts:124-129 | removes the row with that id, if any, and nothing else |
| Db.Database.UpsertUser | server/src/db.ts:22-78 | an empty openId is refused; without a connection nothing happens; otherwise a new user is inserted under the next id, or the user with that openId gets name, email, loginMethod, role and lastSignedIn rewritten; openIds stay unique |
| Db.Database.GetUserByOpenId | server/src/db.ts:80-90 | a user with that openId exactly when one exists; nothing without a connection |
| Extraction.Fields | routers.ts:377-426 | every property a document type asks for is an editable column; the additional set includes both name fields |
| Extraction.ImageColumn | routers.ts:209-225 | the column keeping a document's URL is an image column and not one of its extracted fields |
| Extraction.ImageColumnsDistinct | routers.ts:209-225 | the three document types keep their URLs in three different columns |
| Extraction.ExtensionOfMimeType | routers.ts:75 | the extension of `type/subtype` is `subtype` |
| Extraction.ExtensionWithoutSlash | routers.ts:75 | a MIME type without a slash gives the extension "undefined" |
| Extraction.FileKeyFolder | routers.ts:76-77 | the second path segment of every storage key is the uploader's id |
| Extraction.FileKeysSeparateUsers | routers.ts:76-77 | two uploads by different users never share a storage key |
| Extraction.ImageRequest | routers.ts:81-83 | the model is asked for the document type's fields, nullable, with the URL attached as a file for a PDF and as an image otherwise |
| Extraction.TextRequest | routers.ts:363-432 | the model is asked for the document type's fields, with the pasted text and no attachment |
| Extraction.ImageFailure | routers.ts:194-206 | extraction fails before the update exactly when the call failed, there were no choices, no message, or unparsable content; non-string content reads as `{}` |
| Extraction.TextFailure | routers.ts:434-439 | the same failures for pasted text; a null or missing message fails with JavaScript's TypeError text, naming null or undefined |
| Extraction.ImagePatch | routers.ts:209-225 | the update holds the URL under the image column and every parsed value; a parsed value for the image column overrides the URL |
| Extraction.FallbackPatch | routers.ts:236-243 | after a failure only the URL is written, which the database always accepts |
| Extraction.TextPatch | routers.ts:441-447 | the parsed values are written as they are, except that "additional" text drops both name fields |
| Extraction.ManualPatch | routers.ts:460-512 | exactly the present editable fields are set to their strings; other keys are dropped by the input schema |
| Extraction.ImageEffect | routers.ts:187-247 | success exactly when the reply parsed and every value fits, and then the parsed values are stored as their columns assign them; on failure only the URL is saved and "Failed to extract data: " is raised, followed by the reply's own failure message or by "value too long" with the limit of a parsed value that does not fit; no column the reply does not name changes, except the image column |
| Extraction.TextEffect | routers.ts:362-456 | on success the parsed values are stored as their columns assign them (names excepted for "additional"); a reply that leaves nothing to write fails with "No values to set"; on failure nothing changes and "Failed to process text: " carries the cause: the reply's failure message, or "value too long" with the limit of a written value that does not fit |
| Extraction.AdditionalKeepsNames | routers.ts:443-447 | processing "additional" text never changes the two name fields |
| Extraction.TextSucceedsIffFits | routers.ts:449-455 | text processing succeeds exactly when the model answered, something is left to write, and every value fits its column |
| Extraction.ManualEffect | routers.ts:513-520 | fails exactly when no editable field is present ("No values to set") or some present field does not fit (reporting the limit of such a field), leaving the row unchanged either way; otherwise stores the present fields as their columns assign them and keeps every other column, the image URLs included |
| Extraction.CompleteEffect | routers.ts:531-534 | marking completed sets status "completed" and the flag and changes no text column |
| Extraction.CompleteIdempotent | routers.ts:531-534 | marking completed twice is the same as once |
| Router.Gate | routers.ts:68-71 | passes exactly for a signed-in caller, with a database, on an existing row the caller owns; otherwise Unauthorized, "Database not available", or "Application not found" |
| Router.GateHidesOthersRecords | routers.ts:49-52 | another user's record is reported exactly as a missing one |
| Router.Authorize | routers.ts:68-71 | the lookup and owner comparison give exactly Gate's answer |
| Router.Create | routers.ts:31-39 | a signed-in caller gets a new draft, not yet extracted, under a fresh id |
| Router.List | routers.ts:41-43 | a signed-in caller gets exactly their own applications, newest first |
| Router.Get | routers.ts:46-55 | the application when Gate passes, Gate's error otherwise |
| Router.ExtractFromImage | routers.ts:57-248 | nothing happens unless Gate passes; otherwise the document is stored under the caller's key, a failed upload fails, and the record and answer are ImageEffect's |
| Router.ProcessTextInput | routers.ts:251-457 | nothing happens unless Gate passes; otherwise the record and answer are TextEffect's |
| Router.UpdateManualFields | routers.ts:460-521 | nothing happens unless Gate passes; otherwise the record and answer are ManualEffect's |
| Router.MarkCompleted | routers.ts:523-537 | nothing happens unless Gate passes; otherwise the application is marked completed |
| Router.Delete | routers.ts:539-550 | nothing happens unless Gate passes; otherwise exactly that application is removed |
| PdfExport.Cell | pdfExport.ts:24 | a null or empty value shows as "N/A", any other value as itself; a cell is never empty |
| PdfExport.Rows | pdfExport.ts:23-33 | one row per column, in order, holding the column's label and its cell |
| PdfExport.PassportTableShowsPassportFields | pdfExport.ts:23-33 | the passport table shows exactly the passport fields the model extracts |
| PdfExport.FlightTableShowsFlightFields | pdfExport.ts:52-59 | the flight table shows exactly the flight fields |
| PdfExport.HotelTableShowsHotelFields | pdfExport.ts:84-93 | the hotel table shows exactly the hotel fields |
| PdfExport.AdditionalTableShowsAdditionalFields | pdfExport.ts:118-138 | the additional table shows the additional fields except the names and the departure date, which the other tables show |
| PdfExport.TableSizes | pdfExport.ts:23-138 | the tables have 9, 6, 8 and 19 rows |
| PdfExport.BookingReferenceRows | pdfExport.ts:57 | both "Booking Reference" rows exist; the flight one reads bookingReference and the hotel one hotelBookingReference |
| PdfExport.PageCount | pdfExport.ts:150 | every heading lies on a page of the document |
| PdfExport.CheckedHeadingsFit | pdfExport.ts:70-110 | the hotel and additional headings never start below y 250; the flight heading, which has no check, does whenever the passport table ends low enough |
| PdfExport.FootersDiffer | pdfExport.ts:151-167 | no two pages carry the same footer |
| PdfExport.DrawSection | pdfExport.ts:18-44 | a heading and its table ten below go on the current page; the pages autoTable adds follow; nothing drawn before is lost |
| PdfExport.PlaceSection | pdfExport.ts:44-116 | a section lands on the page and at the height the layout gives |
| PdfExport.DrawBody | pdfExport.ts:5-147 | title and id on page 1, then all four sections placed by the layout rules, with a page added after the flight or hotel table when the next heading would start below y 250 |
| PdfExport.GenerateVisaPdf | pdfExport.ts:5-171 | the page count, the title and id lines, all four sections in place, "Page i of n" and the date at the foot of every page, and the file name `visa-application-<id>.pdf` |
| PdfExport.EveryManualFieldShown | pdfExport.ts:23-138 | every field a user can edit appears in one of the four tables |
| IntakeWizard.StepNumber | NewApplication.tsx:164-171 | steps are numbered 1 to 4, passport first and additional last |
| IntakeWizard.StepNumberInjective | NewApplication.tsx:164-171 | different steps have different numbers |
| IntakeWizard.Progress | NewApplication.tsx:173-174 | the progress bar shows the step number out of 4 as a percentage |
| IntakeWizard.Following | NewApplication.tsx:282 | "Next" leads to the step numbered one higher |
| IntakeWizard.Preceding | NewApplication.tsx:326 | "Back" leads to the step numbered one lower |
| IntakeWizard.BackUndoesNext | NewApplication.tsx:282-349 | "Back" after "Next" returns to the same step |
| IntakeWizard.Wizard.constructor | NewApplication.tsx:16-35 | on the passport step, with no application, empty texts, and nothing processing or completed |
| IntakeWizard.Wizard.Type | NewApplication.tsx:258 | typing changes only the shown step's text |
| IntakeWizard.Wizard.Begin | NewApplication.tsx:40-46 | a handler starts exactly when the trimmed text is non-empty and, after passport, an application exists; it then sets only the processing flag |
| IntakeWizard.Wizard.FinishPassport | NewApplication.tsx:48-71 | a new application's id is kept as soon as create answers; passport is completed exactly when processing succeeded for an application; processing is cleared either way |
| IntakeWizard.Wizard.Finish | NewApplication.tsx:86-101 | the step is completed exactly when processing succeeded; processing is cleared either way |
| IntakeWizard.Wizard.Next | NewApplication.tsx:282 | moves on to the following step and changes nothing else |
| IntakeWizard.Wizard.Back | NewApplication.tsx:326-327 | moves back to the preceding step and changes nothing else |
| IntakeWizard.Wizard.Done | NewApplication.tsx:493 | routes to `/application/<id>`, and every step has been completed |
| EditForm.ParseInt | ViewApplication.tsx:19 | parseInt without a radix gives NaN exactly when no digit follows the optional whitespace and sign, where after "0x" or "0X" a hexadecimal digit is needed; a negative result comes only from a minus sign |
| EditForm.ParseIntOfHex | ViewApplication.tsx:19 | "0x" followed by hexadecimal digits reads as their hexadecimal value |
| EditForm.ParseIntOfBareHexPrefix | ViewApplication.tsx:19 | "0x" alone is NaN, so the page takes it for no id |
| EditForm.ParseIntOfIntToString | ViewApplication.tsx:19 | the page reads back every id the intake page writes into the route |
| EditForm.InitialForm | ViewApplication.tsx:29-79 | the form starts with the 42 editable fields, all empty |
| EditForm.Project | ViewApplication.tsx:82-132 | the loaded form holds each editable field's value, and the empty string exactly where the column is null or empty |
| EditForm.AfterLoad | ViewApplication.tsx:82-84 | the form follows the application once it has loaded and is left alone before |
| EditForm.Change | ViewApplication.tsx:167-169 | editing a field changes only that field |
| EditForm.SaveRoundTrip | ViewApplication.tsx:140-155 | a complete form saves exactly when every field fits its column; the reloaded form then shows each field as its column stores it, and is the saved form itself when every field is within its length |
| EditForm.SaveLeavesNoNulls | ViewApplication.tsx:144-147 | after a successful save no editable field is null |
| EditForm.Save | ViewApplication.tsx:140-155 | without an id nothing happens; otherwise updateManualFields runs with every field, and on success the page shows the reloaded record, which is the saved form again when every field is within its length |
| EditForm.Download | ViewApplication.tsx:157-165 | no document before the application loads; otherwise the pages of generateVisaPDF: the title and id lines, all four sections placed by the layout, "Page i of n" and the date at the foot of every page, and the name `visa-application-<id>.pdf` |
| Text.TrimEmptyIffBlank | NewApplication.tsx:41 | `trim()` is empty exactly when the text is all whitespace |
| Text.IntToStringInjective | routers.ts:77 | different numbers print differently |

## Left out

- The language model, the object store, HTTP, and the session cookie are not
  modelled. The model's reply and the upload's result are parameters.
  `Buffer.from(base64)` and the upload's bytes are not modelled either.
- The wording of the prompts is not modelled. Only the properties each one
  asks for are.
- `Math.random().toString(36).substring(7)` is a `suffix` parameter.
- `new Date()` is a `now` parameter, and `toLocaleDateString()` a `today`
  string.
- `getDb()` and its lazy connection are reduced to a flag, `available`,
  fixed for the database's lifetime.
- Concurrency is not modelled. Between a procedure's ownership check and its
  update, another request could delete the row.
- Db.Database.UpsertUser: the varchar limits of the users table (openId 64,
  email 320, loginMethod 64) are not enforced.
- Db.Database.GetUserApplications: rows with equal `createdAt` may come back
  in any order, as in PostgreSQL.
- EditForm.ParseInt: a run of digits beyond 2^53 is read exactly. JavaScript
  rounds it to the nearest double.
- Schema.FirstTooLong: the limit reported is that of the first too-long
  column in table order. PostgreSQL may check the columns in another order.
- A JSON reply whose content is not an object, or whose values are not
  strings, is not modelled. Nor is a reply naming a property outside the
  table.
- Drawing is reduced to the items placed on each page. Fonts, colours, and
  autoTable's row layout are left out. Where a table ends is a parameter.
  A table split over pages is recorded on its starting page.
- The toasts, the loading spinners, and the redirect to sign-in are not
  modelled.
- index.ts and the auth procedures (`auth.me`, `auth.logout`) are not part
  of this model.
- Home.tsx and ApplicationsList.tsx are not part of this model.
