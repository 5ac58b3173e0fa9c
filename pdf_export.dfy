/** generateVisaPDF (pdfExport.ts): the four label/value tables of an
    application and where the document places them. What jsPDF and
    autoTable draw is reduced to the items placed on each page; where a
    table ends, which depends on how autoTable lays out its rows, is an
    input. */
module PdfExport {
  import opened Wrappers
  import opened Text
  import opened Schema
  import Extraction

  /** One body line of a table. */
  datatype Row = Row(field: string, value: string)

  /** `value || "N/A"`: null and the empty string both show as "N/A". */
  function Cell(v: Option<string>): (s: string)
    ensures s != ""
    ensures v.Some? && v.value != "" ==> s == v.value
    ensures v.None? || v.value == "" ==> s == "N/A"
  {
    match v
    case Some(text) => if text != "" then text else "N/A"
    case None => "N/A"
  }

  datatype Section = PassportSection | FlightSection | HotelSection | AdditionalSection {
    function Title(): string {
      match this
      case PassportSection => "Passport Information"
      case FlightSection => "Flight Information"
      case HotelSection => "Hotel Information"
      case AdditionalSection => "Additional Information"
    }

    /** The column of each row, in table order. */
    function Columns(): seq<Column> {
      match this
      case PassportSection =>
        [PassportNumber, FullNameEnglish, FullNameArabic, Nationality,
         DateOfBirth, Gender, PlaceOfBirth, PassportIssueDate,
         PassportExpiryDate]
      case FlightSection =>
        [DepartureDate, ReturnDate, Destination, FlightNumber,
         BookingReference, Airline]
      case HotelSection =>
        [HotelName, HotelAddressEnglish, HotelAddressArabic, HotelPhone,
         HotelEmail, HotelBookingReference, CheckInDate, CheckOutDate]
      case AdditionalSection =>
        [CurrentAddressEnglish, CurrentAddressArabic, AddressCity, AddressDistrict,
         AddressStreet, MobileNumber, Email, NationalIdNumber,
         Occupation, EmployerName, EmployerLocation, MaritalStatus,
         PurposeOfTravel, DestinationCountry, DepartureCity, ApplicationDatePlace,
         PreviousSchengenVisa, NumberOfEntries, DurationOfStay]
    }
  }

  /** The first column of a row: the same label wherever the column is shown. */
  function Label(c: Column): string {
    match c
    case PassportNumber => "Passport Number"
    case FullNameEnglish => "Full Name (English)"
    case FullNameArabic => "Full Name (Arabic)"
    case Nationality => "Nationality"
    case DateOfBirth => "Date of Birth"
    case Gender => "Gender"
    case PlaceOfBirth => "Place of Birth"
    case PassportIssueDate => "Issue Date"
    case PassportExpiryDate => "Expiry Date"
    case DepartureDate => "Departure Date"
    case ReturnDate => "Return Date"
    case Destination => "Destination"
    case FlightNumber => "Flight Number"
    case BookingReference => "Booking Reference"
    case Airline => "Airline"
    case HotelName => "Hotel Name"
    case HotelAddressEnglish => "Hotel Address (English)"
    case HotelAddressArabic => "Hotel Address (Arabic)"
    case HotelPhone => "Hotel Phone"
    case HotelEmail => "Hotel Email"
    case HotelBookingReference => "Booking Reference"
    case CheckInDate => "Check-in Date"
    case CheckOutDate => "Check-out Date"
    case CurrentAddressEnglish => "Current Address (English)"
    case CurrentAddressArabic => "Current Address (Arabic)"
    case AddressCity => "Address City"
    case AddressDistrict => "Address District"
    case AddressStreet => "Address Street"
    case MobileNumber => "Mobile Number"
    case Email => "Email"
    case NationalIdNumber => "National ID Number"
    case Occupation => "Occupation"
    case EmployerName => "Employer Name"
    case EmployerLocation => "Employer Location"
    case MaritalStatus => "Marital Status"
    case PurposeOfTravel => "Purpose of Travel"
    case DestinationCountry => "Destination Country"
    case DepartureCity => "Departure City"
    case ApplicationDatePlace => "Application Date & Place"
    case PreviousSchengenVisa => "Previous Schengen Visa"
    case NumberOfEntries => "Number of Entries"
    case DurationOfStay => "Duration of Stay"
    case PassportImageUrl => ""
    case FlightTicketImageUrl => ""
    case HotelConfirmationImageUrl => ""
  }

  const Header: seq<string> := ["Field", "Value"]

  /** The body of a table: one row per column, its label and the record's
      value. */
  function Rows(columns: seq<Column>, a: Application): (rows: seq<Row>)
    ensures |rows| == |columns|
    ensures forall i :: 0 <= i < |columns| ==> rows[i] == Row(Label(columns[i]), Cell(a.Get(columns[i])))
  {
    if columns == [] then [] else [Row(Label(columns[0]), Cell(a.Get(columns[0])))] + Rows(columns[1..], a)
  }

  /** The document tables show the fields the model is asked for: each
      document's own set, and for the additional table the additional set
      without the names and the departure date, which the passport and
      flight tables already show. */
  lemma PassportTableShowsPassportFields()
    ensures forall c :: c in PassportSection.Columns() <==> c in Extraction.Fields(Extraction.Passport)
  {
  }

  lemma FlightTableShowsFlightFields()
    ensures forall c :: c in FlightSection.Columns() <==> c in Extraction.Fields(Extraction.Flight)
  {
  }

  lemma HotelTableShowsHotelFields()
    ensures forall c :: c in HotelSection.Columns() <==> c in Extraction.Fields(Extraction.Hotel)
  {
  }

  lemma AdditionalTableShowsAdditionalFields()
    ensures forall c :: c in AdditionalSection.Columns() <==>
      c in Extraction.Fields(Extraction.Additional) && c !in {FullNameEnglish, FullNameArabic, DepartureDate}
  {
  }

  /** The tables have 9, 6, 8 and 19 rows. */
  lemma TableSizes(a: Application)
    ensures |Rows(PassportSection.Columns(), a)| == 9 && |Rows(FlightSection.Columns(), a)| == 6
    ensures |Rows(HotelSection.Columns(), a)| == 8 && |Rows(AdditionalSection.Columns(), a)| == 19
  {
  }

  /** Both tables have a "Booking Reference" row: the flight one reads
      bookingReference and the hotel one hotelBookingReference. */
  lemma BookingReferenceRows(a: Application)
    ensures Rows(FlightSection.Columns(), a)[4] == Row("Booking Reference", Cell(a.Get(BookingReference)))
    ensures Rows(HotelSection.Columns(), a)[5] == Row("Booking Reference", Cell(a.Get(HotelBookingReference)))
  {
    assert FlightSection.Columns()[4] == BookingReference;
    assert HotelSection.Columns()[5] == HotelBookingReference;
  }

  /** Where autoTable left off: `lastAutoTable.finalY` on the last page it
      drew on, and how many pages it added to fit the rows. */
  datatype TableEnd = TableEnd(finalY: int, pagesAdded: nat)

  datatype TableEnds = TableEnds(passport: TableEnd, flight: TableEnd, hotel: TableEnd, additional: TableEnd) {
    function Of(s: Section): TableEnd {
      match s
      case PassportSection => passport
      case FlightSection => flight
      case HotelSection => hotel
      case AdditionalSection => additional
    }
  }

  /** What is placed on a page. */
  datatype Item =
    | Text(text: string, x: int, y: int)
    | Table(startY: int, head: seq<string>, body: seq<Row>)

  /** The height of jsPDF's default page, A4 portrait, in millimetres. */
  const PageHeight: int := 297

  /** The y at which a page break is taken instead. */
  const BreakBelow: int := 250

  /** A page is added after a table when the next heading would fall below
      `BreakBelow`. */
  predicate BreaksAfter(end: TableEnd) {
    end.finalY + 15 > BreakBelow
  }

  /** The y of a section heading. */
  function HeadingY(ends: TableEnds, s: Section): int {
    match s
    case PassportSection => 45
    case FlightSection => ends.passport.finalY + 15
    case HotelSection => if BreaksAfter(ends.flight) then 20 else ends.flight.finalY + 15
    case AdditionalSection => if BreaksAfter(ends.hotel) then 20 else ends.hotel.finalY + 15
  }

  function Breaks(end: TableEnd): nat {
    if BreaksAfter(end) then 1 else 0
  }

  /** The page, counting from 0, that holds a section's heading and the
      start of its table. */
  function HeadingPage(ends: TableEnds, s: Section): nat {
    match s
    case PassportSection => 0
    case FlightSection => ends.passport.pagesAdded
    case HotelSection => ends.passport.pagesAdded + ends.flight.pagesAdded + Breaks(ends.flight)
    case AdditionalSection =>
      ends.passport.pagesAdded + ends.flight.pagesAdded + Breaks(ends.flight)
        + ends.hotel.pagesAdded + Breaks(ends.hotel)
  }

  function PageCount(ends: TableEnds): (n: nat)
    ensures forall s: Section :: HeadingPage(ends, s) < n
  {
    HeadingPage(ends, AdditionalSection) + ends.additional.pagesAdded + 1
  }

  /** The hotel and additional headings never start below `BreakBelow`; the
      flight heading has no such check and may. */
  lemma CheckedHeadingsFit(ends: TableEnds)
    ensures HeadingY(ends, HotelSection) <= BreakBelow
    ensures HeadingY(ends, AdditionalSection) <= BreakBelow
    ensures ends.passport.finalY + 15 > BreakBelow ==> HeadingY(ends, FlightSection) > BreakBelow
  {
  }

  /** The two footer lines of page `i` of `n`. */
  function Footer(i: nat, n: nat, today: string): seq<Item> {
    [Text("Page " + NatToString(i) + " of " + NatToString(n), 105, PageHeight - 10),
     Text("Generated on " + today, 105, PageHeight - 5)]
  }

  /** No two pages carry the same footer. */
  lemma FootersDiffer(i: nat, j: nat, n: nat, today: string)
    requires Footer(i, n, today) == Footer(j, n, today)
    ensures i == j
  {
    var s := Footer(i, n, today)[0].text;
    var t := Footer(j, n, today)[0].text;
    var a, b := NatToString(i), NatToString(j);
    assert s == t;
    assert |a| == |b|;
    assert s[5..5 + |a|] == a;
    assert t[5..5 + |b|] == b;
    NatToStringInjective(i, j);
  }

  /** `rest` keeps every page of `pages` as a prefix: drawing only ever adds. */
  ghost predicate Extends(pages: seq<seq<Item>>, rest: seq<seq<Item>>) {
    |pages| <= |rest| && forall k :: 0 <= k < |pages| ==> pages[k] <= rest[k]
  }

  lemma ExtendsTransitive(p: seq<seq<Item>>, q: seq<seq<Item>>, r: seq<seq<Item>>)
    requires Extends(p, q) && Extends(q, r)
    ensures Extends(p, r)
  {
    forall k | 0 <= k < |p| ensures p[k] <= r[k] {
      assert p[k] <= q[k] && q[k] <= r[k];
    }
  }

  /** A section's heading and table sit on the page and at the height the
      layout rules give. */
  ghost predicate Placed(pages: seq<seq<Item>>, ends: TableEnds, a: Application, s: Section) {
    && HeadingPage(ends, s) < |pages|
    && Text(s.Title(), 14, HeadingY(ends, s)) in pages[HeadingPage(ends, s)]
    && Table(HeadingY(ends, s) + 10, Header, Rows(s.Columns(), a)) in pages[HeadingPage(ends, s)]
  }

  lemma PlacedKept(pages: seq<seq<Item>>, rest: seq<seq<Item>>, ends: TableEnds, a: Application, s: Section)
    requires Placed(pages, ends, a, s) && Extends(pages, rest)
    ensures Placed(rest, ends, a, s)
  {
    var k := HeadingPage(ends, s);
    var heading := Text(s.Title(), 14, HeadingY(ends, s));
    var table := Table(HeadingY(ends, s) + 10, Header, Rows(s.Columns(), a));
    var i :| 0 <= i < |pages[k]| && pages[k][i] == heading;
    var j :| 0 <= j < |pages[k]| && pages[k][j] == table;
    assert pages[k] <= rest[k];
    assert rest[k][i] == heading && rest[k][j] == table;
  }

  /** A heading at `y`, then its table ten below, on the current (last) page,
      followed by the pages autoTable added. */
  method DrawSection(pages: seq<seq<Item>>, y: int, title: string, body: seq<Row>, end: TableEnd)
    returns (next: seq<seq<Item>>)
    requires |pages| >= 1
    ensures |next| == |pages| + end.pagesAdded
    ensures Extends(pages, next)
    ensures Text(title, 14, y) in next[|pages| - 1] && Table(y + 10, Header, body) in next[|pages| - 1]
  {
    var last := |pages| - 1;
    next := pages[last := pages[last] + [Text(title, 14, y), Table(y + 10, Header, body)]];
    var k := 0;
    while k < end.pagesAdded
      invariant 0 <= k <= end.pagesAdded
      invariant |next| == |pages| + k
      invariant Extends(pages, next)
      invariant Text(title, 14, y) in next[last] && Table(y + 10, Header, body) in next[last]
    {
      next := next + [[]];
      k := k + 1;
    }
  }

  /** DrawSection for one of the four sections, at the height and on the
      page the layout rules give. */
  method PlaceSection(pages: seq<seq<Item>>, y: int, ends: TableEnds, a: Application, s: Section)
    returns (next: seq<seq<Item>>)
    requires |pages| == HeadingPage(ends, s) + 1 && y == HeadingY(ends, s)
    ensures |next| == |pages| + ends.Of(s).pagesAdded
    ensures Extends(pages, next) && Placed(next, ends, a, s)
  {
    next := DrawSection(pages, y, s.Title(), Rows(s.Columns(), a), ends.Of(s));
  }

  /** Title, application id and the four sections, with `yPosition` moved
      on after each table and a page added where the layout breaks. */
  method DrawBody(a: Application, ends: TableEnds) returns (pages: seq<seq<Item>>)
    ensures |pages| == PageCount(ends)
    ensures |pages[0]| >= 2
    ensures pages[0][..2] == [Text("Schengen Visa Application", 105, 20), Text("Application ID: " + IntToString(a.id), 105, 30)]
    ensures forall s: Section :: Placed(pages, ends, a, s)
  {
    pages := [[Text("Schengen Visa Application", 105, 20), Text("Application ID: " + IntToString(a.id), 105, 30)]];
    ghost var p0 := pages;
    var yPosition := 45;

    pages := PlaceSection(pages, yPosition, ends, a, PassportSection);
    ghost var p1 := pages;
    yPosition := ends.passport.finalY + 15;

    pages := PlaceSection(pages, yPosition, ends, a, FlightSection);
    yPosition := ends.flight.finalY + 15;
    if yPosition > BreakBelow {
      pages := pages + [[]];
      yPosition := 20;
    }
    ghost var p2 := pages;

    pages := PlaceSection(pages, yPosition, ends, a, HotelSection);
    yPosition := ends.hotel.finalY + 15;
    if yPosition > BreakBelow {
      pages := pages + [[]];
      yPosition := 20;
    }
    ghost var p3 := pages;

    pages := PlaceSection(pages, yPosition, ends, a, AdditionalSection);
    ExtendsTransitive(p2, p3, pages);
    ExtendsTransitive(p1, p2, pages);
    ExtendsTransitive(p0, p1, pages);
    forall s: Section ensures Placed(pages, ends, a, s) {
      match s
      case PassportSection => PlacedKept(p1, pages, ends, a, s);
      case FlightSection => PlacedKept(p2, pages, ends, a, s);
      case HotelSection => PlacedKept(p3, pages, ends, a, s);
      case AdditionalSection =>
    }
    assert pages[0][..2] == p0[0];
  }

  /** generateVisaPDF: the body, then the footer on every page, and the
      name the file is saved under. */
  method GenerateVisaPdf(a: Application, ends: TableEnds, today: string)
    returns (pages: seq<seq<Item>>, fileName: string)
    ensures |pages| == PageCount(ends)
    ensures |pages[0]| >= 4
    ensures pages[0][0] == Text("Schengen Visa Application", 105, 20)
    ensures pages[0][1] == Text("Application ID: " + IntToString(a.id), 105, 30)
    ensures forall s: Section :: Placed(pages, ends, a, s)
    ensures forall k :: 0 <= k < |pages| ==>
      |pages[k]| >= 2 && pages[k][|pages[k]| - 2..] == Footer(k + 1, |pages|, today)
    ensures fileName == "visa-application-" + IntToString(a.id) + ".pdf"
  {
    pages := DrawBody(a, ends);
    ghost var body := pages;
    var pageCount := |pages|;
    var i := 1;
    while i <= pageCount
      invariant 1 <= i <= pageCount + 1 && |pages| == pageCount
      invariant forall k :: 0 <= k < i - 1 ==> pages[k] == body[k] + Footer(k + 1, pageCount, today)
      invariant forall k :: i - 1 <= k < pageCount ==> pages[k] == body[k]
    {
      pages := pages[i - 1 := pages[i - 1] + Footer(i, pageCount, today)];
      i := i + 1;
    }
    assert Extends(body, pages);
    forall s: Section ensures Placed(pages, ends, a, s) {
      PlacedKept(body, pages, ends, a, s);
    }
    assert pages[0][..2] == body[0][..2];
    fileName := "visa-application-" + IntToString(a.id) + ".pdf";
  }

  /** Every field a user can edit is shown in one of the four tables. */
  lemma EveryManualFieldShown(c: Column)
    requires IsManual(c)
    ensures exists s: Section :: c in s.Columns()
  {
    if c in Extraction.Fields(Extraction.Passport) {
      PassportTableShowsPassportFields();
      assert c in PassportSection.Columns();
    } else if c in Extraction.Fields(Extraction.Flight) {
      FlightTableShowsFlightFields();
      assert c in FlightSection.Columns();
    } else if c in Extraction.Fields(Extraction.Hotel) {
      HotelTableShowsHotelFields();
      assert c in HotelSection.Columns();
    } else {
      AdditionalTableShowsAdditionalFields();
      assert c in AdditionalSection.Columns();
    }
  }
}
