/** The two tables of the database (drizzle/schema.ts): users and
    visa_applications, their enums, defaults, nullability and the
    varchar length limits the database enforces. */
module Schema {
  import opened Wrappers

  /** `statusEnum`: "draft", "completed", "submitted". */
  datatype Status = Draft | Completed | Submitted

  /** `roleEnum`: "user", "admin". */
  datatype Role = UserRole | AdminRole

  const DefaultRole: Role := UserRole

  /** The 45 nullable text columns of visa_applications, in table order:
      the 42 document and manual fields and the three image-URL fields. */
  datatype Column =
    // passport
    | PassportNumber | PassportImageUrl | FullNameEnglish | FullNameArabic
    | Nationality | DateOfBirth | PassportIssueDate | PassportExpiryDate
    | PlaceOfBirth | Gender
    // flight ticket
    | FlightTicketImageUrl | DepartureDate | ReturnDate | Destination
    | FlightNumber | BookingReference | Airline
    // hotel confirmation
    | HotelConfirmationImageUrl | HotelName | HotelAddressEnglish
    | HotelAddressArabic | HotelPhone | HotelEmail | CheckInDate
    | CheckOutDate | HotelBookingReference
    // manual input
    | CurrentAddressEnglish | CurrentAddressArabic | MobileNumber | Email
    | NationalIdNumber | Occupation
    // additional Schengen fields
    | PurposeOfTravel | NumberOfEntries | DurationOfStay | DestinationCountry
    | ApplicationDatePlace | DepartureCity | EmployerName | EmployerLocation
    | MaritalStatus | PreviousSchengenVisa | AddressCity | AddressDistrict
    | AddressStreet

  const ImageColumns: set<Column> :=
    {PassportImageUrl, FlightTicketImageUrl, HotelConfirmationImageUrl}

  /** The 42 fields a user can edit by hand: every column but the image URLs. */
  predicate IsManual(c: Column) {
    c !in ImageColumns
  }

  const ColumnCount: nat := 45

  /** The position of a column in the table, counting from 0. */
  function Position(c: Column): (k: nat)
    ensures k < ColumnCount
  {
    match c
    case PassportNumber => 0
    case PassportImageUrl => 1
    case FullNameEnglish => 2
    case FullNameArabic => 3
    case Nationality => 4
    case DateOfBirth => 5
    case PassportIssueDate => 6
    case PassportExpiryDate => 7
    case PlaceOfBirth => 8
    case Gender => 9
    case FlightTicketImageUrl => 10
    case DepartureDate => 11
    case ReturnDate => 12
    case Destination => 13
    case FlightNumber => 14
    case BookingReference => 15
    case Airline => 16
    case HotelConfirmationImageUrl => 17
    case HotelName => 18
    case HotelAddressEnglish => 19
    case HotelAddressArabic => 20
    case HotelPhone => 21
    case HotelEmail => 22
    case CheckInDate => 23
    case CheckOutDate => 24
    case HotelBookingReference => 25
    case CurrentAddressEnglish => 26
    case CurrentAddressArabic => 27
    case MobileNumber => 28
    case Email => 29
    case NationalIdNumber => 30
    case Occupation => 31
    case PurposeOfTravel => 32
    case NumberOfEntries => 33
    case DurationOfStay => 34
    case DestinationCountry => 35
    case ApplicationDatePlace => 36
    case DepartureCity => 37
    case EmployerName => 38
    case EmployerLocation => 39
    case MaritalStatus => 40
    case PreviousSchengenVisa => 41
    case AddressCity => 42
    case AddressDistrict => 43
    case AddressStreet => 44
  }

  /** The column at a position of the table. */
  function ColumnAt(k: nat): Column
    requires k < ColumnCount
  {
    match k
    case 0 => PassportNumber
    case 1 => PassportImageUrl
    case 2 => FullNameEnglish
    case 3 => FullNameArabic
    case 4 => Nationality
    case 5 => DateOfBirth
    case 6 => PassportIssueDate
    case 7 => PassportExpiryDate
    case 8 => PlaceOfBirth
    case 9 => Gender
    case 10 => FlightTicketImageUrl
    case 11 => DepartureDate
    case 12 => ReturnDate
    case 13 => Destination
    case 14 => FlightNumber
    case 15 => BookingReference
    case 16 => Airline
    case 17 => HotelConfirmationImageUrl
    case 18 => HotelName
    case 19 => HotelAddressEnglish
    case 20 => HotelAddressArabic
    case 21 => HotelPhone
    case 22 => HotelEmail
    case 23 => CheckInDate
    case 24 => CheckOutDate
    case 25 => HotelBookingReference
    case 26 => CurrentAddressEnglish
    case 27 => CurrentAddressArabic
    case 28 => MobileNumber
    case 29 => Email
    case 30 => NationalIdNumber
    case 31 => Occupation
    case 32 => PurposeOfTravel
    case 33 => NumberOfEntries
    case 34 => DurationOfStay
    case 35 => DestinationCountry
    case 36 => ApplicationDatePlace
    case 37 => DepartureCity
    case 38 => EmployerName
    case 39 => EmployerLocation
    case 40 => MaritalStatus
    case 41 => PreviousSchengenVisa
    case 42 => AddressCity
    case 43 => AddressDistrict
    case _ => AddressStreet
  }

  lemma PositionOfColumnAt(k: nat)
    requires k < ColumnCount
    ensures Position(ColumnAt(k)) == k
  {
  }

  lemma ColumnAtPosition(c: Column)
    ensures ColumnAt(Position(c)) == c
  {
    match c
    case PassportNumber =>
    case PassportImageUrl =>
    case FullNameEnglish =>
    case FullNameArabic =>
    case Nationality =>
    case DateOfBirth =>
    case PassportIssueDate =>
    case PassportExpiryDate =>
    case PlaceOfBirth =>
    case Gender =>
    case FlightTicketImageUrl =>
    case DepartureDate =>
    case ReturnDate =>
    case Destination =>
    case FlightNumber =>
    case BookingReference =>
    case Airline =>
    case HotelConfirmationImageUrl =>
    case HotelName =>
    case HotelAddressEnglish =>
    case HotelAddressArabic =>
    case HotelPhone =>
    case HotelEmail =>
    case CheckInDate =>
    case CheckOutDate =>
    case HotelBookingReference =>
    case CurrentAddressEnglish =>
    case CurrentAddressArabic =>
    case MobileNumber =>
    case Email =>
    case NationalIdNumber =>
    case Occupation =>
    case PurposeOfTravel =>
    case NumberOfEntries =>
    case DurationOfStay =>
    case DestinationCountry =>
    case ApplicationDatePlace =>
    case DepartureCity =>
    case EmployerName =>
    case EmployerLocation =>
    case MaritalStatus =>
    case PreviousSchengenVisa =>
    case AddressCity =>
    case AddressDistrict =>
    case AddressStreet =>
  }

  /** `varchar(n)` columns carry their `n`; `text` columns have no limit. */
  function LengthLimit(c: Column): Option<nat> {
    match c
    case PassportNumber => Some(50)
    case PassportImageUrl => None
    case FullNameEnglish => Some(255)
    case FullNameArabic => Some(255)
    case Nationality => Some(100)
    case DateOfBirth => Some(50)
    case PassportIssueDate => Some(50)
    case PassportExpiryDate => Some(50)
    case PlaceOfBirth => Some(255)
    case Gender => Some(20)
    case FlightTicketImageUrl => None
    case DepartureDate => Some(50)
    case ReturnDate => Some(50)
    case Destination => Some(255)
    case FlightNumber => Some(50)
    case BookingReference => Some(100)
    case Airline => Some(255)
    case HotelConfirmationImageUrl => None
    case HotelName => Some(255)
    case HotelAddressEnglish => None
    case HotelAddressArabic => None
    case HotelPhone => Some(50)
    case HotelEmail => Some(320)
    case CheckInDate => Some(50)
    case CheckOutDate => Some(50)
    case HotelBookingReference => Some(100)
    case CurrentAddressEnglish => None
    case CurrentAddressArabic => None
    case MobileNumber => Some(50)
    case Email => Some(320)
    case NationalIdNumber => Some(50)
    case Occupation => Some(255)
    case PurposeOfTravel => Some(255)
    case NumberOfEntries => Some(50)
    case DurationOfStay => Some(50)
    case DestinationCountry => Some(100)
    case ApplicationDatePlace => Some(255)
    case DepartureCity => Some(100)
    case EmployerName => Some(255)
    case EmployerLocation => Some(255)
    case MaritalStatus => Some(50)
    case PreviousSchengenVisa => Some(10)
    case AddressCity => Some(100)
    case AddressDistrict => Some(100)
    case AddressStreet => Some(255)
  }

  /** Whether a value lies within a column's length: NULL always does, a
      string when the column is `text` or the string has at most `n`
      characters. */
  predicate WithinLength(c: Column, v: Option<string>) {
    v.None? || LengthLimit(c).None? || |v.value| <= LengthLimit(c).value
  }

  predicate AllSpaces(s: string) {
    forall i :: 0 <= i < |s| ==> s[i] == ' '
  }

  /** Whether the database accepts a value for a column: one within the
      length, or a longer one whose characters past the length are all
      spaces (PostgreSQL, "Character Types": such a string is cut to the
      length instead of raising an error). */
  predicate Fits(c: Column, v: Option<string>) {
    WithinLength(c, v) || AllSpaces(v.value[LengthLimit(c).value..])
  }

  /** The value the database stores when `v` is assigned to the column: a
      string longer than a `varchar(n)` is cut to `n` characters. */
  function Assigned(c: Column, v: Option<string>): (r: Option<string>)
    ensures r.None? <==> v.None?
    ensures WithinLength(c, v) ==> r == v
    ensures v.Some? ==> r.value <= v.value
    ensures Fits(c, v) ==> WithinLength(c, r)
    ensures Fits(c, v) && v.Some? ==> AllSpaces(v.value[|r.value|..])
  {
    if v.Some? && LengthLimit(c).Some? && |v.value| > LengthLimit(c).value then
      Some(v.value[..LengthLimit(c).value])
    else v
  }

  /** A row of visa_applications. Every text column is nullable; a column
      missing from `values` reads as NULL. */
  datatype Application = Application(
    id: int,
    userId: int,
    values: map<Column, Option<string>>,
    status: Status,
    extractionCompleted: bool,
    createdAt: int,
    updatedAt: int)
  {
    function Get(c: Column): Option<string> {
      if c in values then values[c] else None
    }

    ghost predicate WithinLimits() {
      forall c :: c in values ==> WithinLength(c, values[c])
    }
  }

  /** The row the database inserts for `{userId, status, extractionCompleted}`:
      every text column NULL, both timestamps `now` (`defaultNow()`). */
  function NewRow(id: int, userId: int, status: Status, extractionCompleted: bool, now: int): (a: Application)
    ensures a.id == id && a.userId == userId && a.status == status
    ensures a.extractionCompleted == extractionCompleted
    ensures forall c :: a.Get(c) == None
    ensures a.WithinLimits()
  {
    Application(id, userId, map[], status, extractionCompleted, now, now)
  }

  /** `Partial<InsertVisaApplication>` as the handlers build it: a key absent
      from `values` (or a `None` status/flag) is `undefined` and not written;
      a key mapped to `None` writes NULL. */
  datatype Patch = Patch(
    values: map<Column, Option<string>>,
    status: Option<Status>,
    extractionCompleted: Option<bool>)
  {
    /** Nothing to write: Drizzle refuses such an update with "No values to
        set" before it reaches the database. */
    predicate IsEmpty() {
      values == map[] && status.None? && extractionCompleted.None?
    }
  }

  /** `UPDATE ... SET <patch>`: the supplied columns take their assigned
      values and nothing else changes (no column of the table is updated
      automatically, `updatedAt` included). */
  function Apply(a: Application, p: Patch): (b: Application)
    ensures b.id == a.id && b.userId == a.userId
    ensures b.createdAt == a.createdAt && b.updatedAt == a.updatedAt
    ensures forall c :: c in p.values ==> b.Get(c) == Assigned(c, p.values[c])
    ensures forall c :: c !in p.values ==> b.Get(c) == a.Get(c)
    ensures b.status == p.status.GetOr(a.status)
    ensures b.extractionCompleted == p.extractionCompleted.GetOr(a.extractionCompleted)
  {
    a.(values := a.values + map c | c in p.values :: Assigned(c, p.values[c]),
       status := p.status.GetOr(a.status),
       extractionCompleted := p.extractionCompleted.GetOr(a.extractionCompleted))
  }

  /** The limit of the first column, from position `k` on in table order,
      whose new value is too long for it: the reason the database rejects
      the update. */
  function FirstTooLong(k: nat, values: map<Column, Option<string>>): (r: Option<nat>)
    requires k <= ColumnCount
    ensures r.None? <==> forall j :: k <= j < ColumnCount && ColumnAt(j) in values ==> Fits(ColumnAt(j), values[ColumnAt(j)])
    ensures r.Some? ==> exists j :: k <= j < ColumnCount && ColumnAt(j) in values && !Fits(ColumnAt(j), values[ColumnAt(j)])
                                   && LengthLimit(ColumnAt(j)) == Some(r.value)
    decreases ColumnCount - k
  {
    if k == ColumnCount then None
    else if ColumnAt(k) in values && !Fits(ColumnAt(k), values[ColumnAt(k)]) then LengthLimit(ColumnAt(k))
    else FirstTooLong(k + 1, values)
  }

  function Violation(p: Patch): Option<nat> {
    FirstTooLong(0, p.values)
  }

  /** The database accepts an update exactly when every value fits its column. */
  lemma ViolationIffTooLong(p: Patch)
    ensures Violation(p).None? <==> forall c :: c in p.values ==> Fits(c, p.values[c])
  {
    if Violation(p).None? {
      forall c | c in p.values ensures Fits(c, p.values[c]) {
        ColumnAtPosition(c);
      }
    }
  }

  /** The limit an update is refused with is that of a supplied value that
      does not fit its column. */
  lemma ViolationNamesTooLong(p: Patch)
    requires Violation(p).Some?
    ensures exists c :: c in p.values && !Fits(c, p.values[c]) && LengthLimit(c) == Some(Violation(p).value)
  {
    var j :| 0 <= j < ColumnCount && ColumnAt(j) in p.values && !Fits(ColumnAt(j), p.values[ColumnAt(j)])
              && LengthLimit(ColumnAt(j)) == Some(Violation(p).value);
    var c := ColumnAt(j);
    assert c in p.values && !Fits(c, p.values[c]) && LengthLimit(c) == Some(Violation(p).value);
  }

  /** An accepted update keeps a row within the column lengths. */
  lemma ApplyKeepsLimits(a: Application, p: Patch)
    requires a.WithinLimits() && Violation(p).None?
    ensures Apply(a, p).WithinLimits()
  {
    ViolationIffTooLong(p);
    var b := Apply(a, p);
    forall c | c in b.values ensures WithinLength(c, b.values[c]) {
      if c in p.values {
        assert b.Get(c) == Assigned(c, p.values[c]);
      } else {
        assert b.Get(c) == a.Get(c);
      }
    }
  }

  /** A `text` column takes any value. */
  lemma ImageUrlAlwaysFits(c: Column, url: string)
    requires c in ImageColumns
    ensures Violation(Patch(map[c := Some(url)], None, None)).None?
  {
    var p := Patch(map[c := Some(url)], None, None);
    assert LengthLimit(c).None?;
    assert forall d :: d in p.values ==> d == c && Fits(d, p.values[d]);
    ViolationIffTooLong(p);
  }

  /** A row of users; `openId` is non-null and unique across the table. */
  datatype User = User(
    id: int,
    openId: string,
    name: Option<string>,
    email: Option<string>,
    loginMethod: Option<string>,
    role: Role,
    createdAt: int,
    updatedAt: int,
    lastSignedIn: int)

  /** A property of an insert object that may be left out (`undefined`), set
      to `null`, or given. */
  datatype Input<+T> = Undefined | Null | Given(value: T)

  /** `InsertUser` as upsertUser receives it. */
  datatype InsertUser = InsertUser(
    openId: string,
    name: Input<string>,
    email: Input<string>,
    loginMethod: Input<string>,
    role: Option<Role>,
    lastSignedIn: Option<int>)
}
