/** The application page (ViewApplication.tsx): the id taken from the
    route, the edit form over the 42 editable fields, saving it through
    visa.updateManualFields, and the PDF download. */
module EditForm {
  import opened Wrappers
  import opened Text
  import opened Schema
  import opened Errors
  import Db
  import Extraction
  import Router
  import PdfExport

  /** The longest prefix of decimal digits. */
  function DigitPrefix(s: string): (d: string)
    ensures d <= s
    ensures forall i :: 0 <= i < |d| ==> IsDigit(d[i])
    ensures |d| < |s| ==> !IsDigit(s[|d|])
  {
    if s != [] && IsDigit(s[0]) then [s[0]] + DigitPrefix(s[1..]) else []
  }

  lemma {:induction false} DigitPrefixOfDigits(s: string)
    requires forall i :: 0 <= i < |s| ==> IsDigit(s[i])
    ensures DigitPrefix(s) == s
  {
    if s != [] {
      DigitPrefixOfDigits(s[1..]);
      assert [s[0]] + s[1..] == s;
    }
  }

  /** The digits at the start of `t`, read as a number; None when `t` does
      not start with a digit. */
  function LeadingDigits(t: string): (r: Option<nat>)
    ensures r.None? <==> t == [] || !IsDigit(t[0])
  {
    var d := DigitPrefix(t);
    if d == [] then None else Some(DigitsValue(d))
  }

  predicate IsHexDigit(c: char) {
    IsDigit(c) || 'a' <= c <= 'f' || 'A' <= c <= 'F'
  }

  function HexDigitValue(c: char): (v: nat)
    requires IsHexDigit(c)
    ensures v < 16
    ensures IsDigit(c) ==> v == c as int - '0' as int
  {
    if IsDigit(c) then c as int - '0' as int
    else if 'a' <= c <= 'f' then c as int - 'a' as int + 10
    else c as int - 'A' as int + 10
  }

  /** The longest prefix of hexadecimal digits. */
  function HexPrefix(s: string): (d: string)
    ensures d <= s
    ensures forall i :: 0 <= i < |d| ==> IsHexDigit(d[i])
    ensures |d| < |s| ==> !IsHexDigit(s[|d|])
  {
    if s != [] && IsHexDigit(s[0]) then [s[0]] + HexPrefix(s[1..]) else []
  }

  lemma {:induction false} HexPrefixOfHexDigits(s: string)
    requires forall i :: 0 <= i < |s| ==> IsHexDigit(s[i])
    ensures HexPrefix(s) == s
  {
    if s != [] {
      HexPrefixOfHexDigits(s[1..]);
      assert [s[0]] + s[1..] == s;
    }
  }

  /** The number a string of hexadecimal digits denotes. */
  function HexValue(s: string): nat
    requires forall i :: 0 <= i < |s| ==> IsHexDigit(s[i])
  {
    if s == [] then 0
    else
      assert IsHexDigit(s[|s| - 1]);
      HexValue(s[..|s| - 1]) * 16 + HexDigitValue(s[|s| - 1])
  }

  /** The hexadecimal digits at the start of `t`, read as a number; None
      when `t` does not start with one. */
  function LeadingHexDigits(t: string): (r: Option<nat>)
    ensures r.None? <==> t == [] || !IsHexDigit(t[0])
  {
    var d := HexPrefix(t);
    if d == [] then None else Some(HexValue(d))
  }

  predicate HasHexPrefix(t: string) {
    |t| >= 2 && t[0] == '0' && (t[1] == 'x' || t[1] == 'X')
  }

  /** The number after the sign: hexadecimal after "0x" or "0X", decimal
      otherwise. */
  function ParseMagnitude(t: string): (r: Option<nat>)
    ensures HasHexPrefix(t) ==> (r.None? <==> |t| == 2 || !IsHexDigit(t[2]))
    ensures !HasHexPrefix(t) ==> (r.None? <==> t == [] || !IsDigit(t[0]))
  {
    if HasHexPrefix(t) then LeadingHexDigits(t[2..]) else LeadingDigits(t)
  }

  /** `parseInt(s)` without a radix: leading whitespace, an optional sign,
      then the longest run of digits, hexadecimal after a "0x" or "0X"
      prefix and decimal otherwise; NaN (here None) when there are none. */
  function ParseInt(s: string): (r: Option<int>)
    ensures r.None? <==> var t := TrimStart(s);
      ParseMagnitude(if t != [] && (t[0] == '-' || t[0] == '+') then t[1..] else t).None?
    ensures r.Some? && r.value < 0 ==> TrimStart(s)[0] == '-'
  {
    var t := TrimStart(s);
    if t != [] && t[0] == '-' then
      match ParseMagnitude(t[1..])
      case None => None
      case Some(v) => Some(-(v as int))
    else if t != [] && t[0] == '+' then
      match ParseMagnitude(t[1..])
      case None => None
      case Some(v) => Some(v)
    else
      match ParseMagnitude(t)
      case None => None
      case Some(v) => Some(v)
  }

  lemma SignOrDigitIsNotWhitespace(c: char)
    requires IsDigit(c) || c == '-'
    ensures !IsJsWhitespace(c)
  {
  }

  lemma TrimStartKeeps(s: string)
    requires s != [] && (IsDigit(s[0]) || s[0] == '-')
    ensures TrimStart(s) == s
  {
    SignOrDigitIsNotWhitespace(s[0]);
  }

  /** The magnitude of a non-empty string of digits is its decimal value:
      its second character, a digit, is no "x" of a hexadecimal prefix. */
  lemma LeadingDigitsOfDigits(d: string)
    requires d != [] && forall i :: 0 <= i < |d| ==> IsDigit(d[i])
    ensures ParseMagnitude(d) == Some(DigitsValue(d))
  {
    DigitPrefixOfDigits(d);
    if |d| >= 2 {
      assert IsDigit(d[1]);
    }
  }

  /** Without leading whitespace or a sign, the string is read as its
      magnitude ... */
  lemma ParseIntOfUnsigned(s: string, v: nat)
    requires s != [] && IsDigit(s[0]) && ParseMagnitude(s) == Some(v)
    ensures ParseInt(s) == Some(v as int)
  {
    TrimStartKeeps(s);
  }

  /** ... and after a minus sign, as the negated magnitude of the rest. */
  lemma ParseIntOfSigned(t: string, v: nat)
    requires ParseMagnitude(t) == Some(v)
    ensures ParseInt("-" + t) == Some(-(v as int))
  {
    var s := "-" + t;
    TrimStartKeeps(s);
    assert s[0] == '-' && s[1..] == t;
  }

  lemma MagnitudeOfHex(h: string)
    requires h != [] && forall i :: 0 <= i < |h| ==> IsHexDigit(h[i])
    ensures ParseMagnitude("0x" + h) == Some(HexValue(h))
  {
    var s := "0x" + h;
    assert HasHexPrefix(s) && s[2..] == h;
    HexPrefixOfHexDigits(h);
  }

  /** "0x" followed by hexadecimal digits reads as their value. */
  lemma ParseIntOfHex(h: string)
    requires h != [] && forall i :: 0 <= i < |h| ==> IsHexDigit(h[i])
    ensures ParseInt("0x" + h) == Some(HexValue(h) as int)
  {
    MagnitudeOfHex(h);
    ParseIntOfUnsigned("0x" + h, HexValue(h));
  }

  /** A hexadecimal prefix with no digit after it is NaN, and so is no id. */
  lemma ParseIntOfBareHexPrefix()
    ensures ParseInt("0x") == None
    ensures !Truthy(ParseInt("0x"))
  {
    TrimStartKeeps("0x");
  }

  /** A non-empty string of digits reads as its value. */
  lemma ParseIntOfDigits(d: string)
    requires d != [] && forall i :: 0 <= i < |d| ==> IsDigit(d[i])
    ensures ParseInt(d) == Some(DigitsValue(d) as int)
  {
    LeadingDigitsOfDigits(d);
    ParseIntOfUnsigned(d, DigitsValue(d));
  }

  lemma ParseIntOfPrintedNegative(n: int)
    requires n < 0
    ensures ParseInt(IntToString(n)) == Some(n)
  {
    var m: nat := -n;
    var d := NatToString(m);
    assert IntToString(n) == "-" + d;
    LeadingDigitsOfDigits(d);
    ParseIntOfSigned(d, DigitsValue(d));
    DigitsValueOfNatToString(m);
  }

  lemma ParseIntOfPrintedNat(n: int)
    requires n >= 0
    ensures ParseInt(IntToString(n)) == Some(n)
  {
    var d := NatToString(n);
    assert IntToString(n) == d;
    ParseIntOfDigits(d);
    DigitsValueOfNatToString(n);
  }

  /** The page reads back the id the intake page put into the route
      `/application/<id>`. */
  lemma ParseIntOfIntToString(n: int)
    ensures ParseInt(IntToString(n)) == Some(n)
  {
    if n < 0 {
      ParseIntOfPrintedNegative(n);
    } else {
      ParseIntOfPrintedNat(n);
    }
  }

  /** `applicationId` is truthy: neither NaN nor 0. */
  predicate Truthy(id: Option<int>) {
    id.Some? && id.value != 0
  }

  /** formData: one string per editable field. */
  type Form = map<Column, string>

  predicate WellFormed(f: Form) {
    forall c :: c in f <==> IsManual(c)
  }

  /** The form before the application has loaded: every field empty. */
  function InitialForm(): (f: Form)
    ensures WellFormed(f)
    ensures forall c :: c in f ==> f[c] == ""
  {
    map c | IsManual(c) :: ""
  }

  /** The form the load effect sets: `value || ""` per field, so a null
      field shows as the empty string. */
  function Project(a: Application): (f: Form)
    ensures WellFormed(f)
    ensures forall c :: IsManual(c) ==> f[c] == a.Get(c).GetOr("")
    ensures forall c :: IsManual(c) ==> (f[c] == "" <==> a.Get(c).None? || a.Get(c) == Some(""))
  {
    map c | IsManual(c) :: match a.Get(c) case Some(v) => v case None => ""
  }

  /** The load effect: the form follows the application once it is there,
      and is left alone while it is not. */
  function AfterLoad(f: Form, loaded: Option<Application>): (g: Form)
    ensures loaded.None? ==> g == f
    ensures loaded.Some? ==> g == Project(loaded.value)
  {
    match loaded
    case None => f
    case Some(a) => Project(a)
  }

  /** handleChange: the named field takes the value, the others keep theirs. */
  function Change(f: Form, field: Column, value: string): (g: Form)
    requires WellFormed(f) && IsManual(field)
    ensures WellFormed(g)
    ensures g[field] == value
    ensures forall c :: c in f && c != field ==> g[c] == f[c]
  {
    f[field := value]
  }

  /** Saving a complete form succeeds exactly when every field fits its
      column; reloading then shows each field as the database stored it,
      which is the field itself unless it ran past its length with spaces
      only. */
  lemma SaveRoundTrip(rec: Application, f: Form)
    requires WellFormed(f)
    ensures Extraction.ManualEffect(rec, f).result.Ok? <==> forall c :: c in f ==> Fits(c, Some(f[c]))
    ensures Extraction.ManualEffect(rec, f).result.Ok? ==>
      forall c :: c in f ==> Project(Extraction.ManualEffect(rec, f).after)[c] == Assigned(c, Some(f[c])).value
    ensures Extraction.ManualEffect(rec, f).result.Ok? && (forall c :: c in f ==> WithinLength(c, Some(f[c]))) ==>
      Project(Extraction.ManualEffect(rec, f).after) == f
  {
    assert PassportNumber in f;
    var o := Extraction.ManualEffect(rec, f);
    if o.result.Ok? {
      var g := Project(o.after);
      assert g.Keys == f.Keys;
      forall c | c in f ensures g[c] == Assigned(c, Some(f[c])).value {
        assert o.after.Get(c) == Assigned(c, Some(f[c]));
      }
    }
  }

  /** After a save no editable field is null any more. */
  lemma SaveLeavesNoNulls(rec: Application, f: Form)
    requires WellFormed(f) && Extraction.ManualEffect(rec, f).result.Ok?
    ensures forall c :: IsManual(c) ==> Extraction.ManualEffect(rec, f).after.Get(c).Some?
  {
  }

  datatype SaveOutcome =
    /** no id in the route: nothing happens */
    | Skipped
    /** the update or the reload failed: an error is shown */
    | Failed(error: ApiError)
    /** saved and reloaded: the form the page shows afterwards */
    | Saved(form: Form)

  /** handleSave: the id plus all 42 fields to visa.updateManualFields, then
      the reload through visa.get, whose result the load effect shows. */
  method Save(db: Db.Database, caller: Option<int>, applicationId: Option<int>, form: Form)
    returns (outcome: SaveOutcome)
    requires db.Valid() && WellFormed(form)
    modifies db
    ensures db.Valid() && db.users == old(db.users) && db.available == old(db.available)
    ensures !Truthy(applicationId) ==> outcome == Skipped && db.applications == old(db.applications)
    ensures Truthy(applicationId) ==>
      var id := applicationId.value;
      var g := Router.Gate(old(db.available), old(db.applications), caller, id);
      && (g.Err? ==> outcome == Failed(g.error) && db.applications == old(db.applications))
      && (g.Ok? ==>
            var o := Extraction.ManualEffect(g.value, form);
            && db.applications == old(db.applications)[id := o.after]
            && (o.result.Err? ==> outcome == Failed(o.result.error))
            && (o.result.Ok? ==> outcome == Saved(Project(o.after)))
            && (o.result.Ok? && (forall c :: c in form ==> WithinLength(c, Some(form[c]))) ==>
                  outcome == Saved(form)))
  {
    if !Truthy(applicationId) {
      return Skipped;
    }
    var id := applicationId.value;
    var updated := Router.UpdateManualFields(db, caller, id, form);
    if updated.Err? {
      return Failed(updated.error);
    }
    var reloaded := Router.Get(db, caller, id);
    match reloaded {
      case Err(e) => outcome := Failed(e);
      case Ok(a) =>
        SaveRoundTrip(old(db.applications)[id], form);
        outcome := Saved(AfterLoad(form, Some(a)));
    }
  }

  /** handleDownloadPDF: nothing before the application has loaded;
      otherwise the document and its file name. */
  method Download(loaded: Option<Application>, ends: PdfExport.TableEnds, today: string)
    returns (doc: Option<(seq<seq<PdfExport.Item>>, string)>)
    ensures loaded.None? <==> doc.None?
    ensures doc.Some? ==> doc.value.1 == "visa-application-" + IntToString(loaded.value.id) + ".pdf"
    ensures doc.Some? ==> |doc.value.0| == PdfExport.PageCount(ends)
    ensures doc.Some? ==> forall s: PdfExport.Section :: PdfExport.Placed(doc.value.0, ends, loaded.value, s)
    ensures doc.Some? ==> |doc.value.0[0]| >= 2
    ensures doc.Some? ==> doc.value.0[0][0] == PdfExport.Text("Schengen Visa Application", 105, 20)
    ensures doc.Some? ==> doc.value.0[0][1] == PdfExport.Text("Application ID: " + IntToString(loaded.value.id), 105, 30)
    ensures doc.Some? ==> forall k :: 0 <= k < |doc.value.0| ==>
      |doc.value.0[k]| >= 2 && doc.value.0[k][|doc.value.0[k]| - 2..] == PdfExport.Footer(k + 1, |doc.value.0|, today)
  {
    match loaded {
      case None => doc := None;
      case Some(a) =>
        var pages, fileName := PdfExport.GenerateVisaPdf(a, ends, today);
        doc := Some((pages, fileName));
    }
  }
}
