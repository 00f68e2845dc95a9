/**
 * `default_serializer` (app/utils/serializer.py): the `default=` hook handed to `json.dumps`
 * for the values JSON cannot encode natively. A date (or datetime) becomes its ISO 8601
 * text, an enum member its value, and anything else raises `TypeError`.
 */
module Serializer {
  import opened Common
  import opened Text

  datatype Date = Date(year: int, month: int, day: int)

  /** A naive `datetime`: a date and a time of day (microsecond resolution). */
  datatype DateTime = DateTime(date: Date, hour: int, minute: int, second: int, microsecond: int)

  predicate IsLeapYear(y: int) {
    y % 4 == 0 && (y % 100 != 0 || y % 400 == 0)
  }

  function DaysInMonth(y: int, m: int): int
    requires 1 <= m <= 12
  {
    if m == 2 then (if IsLeapYear(y) then 29 else 28)
    else if m == 4 || m == 6 || m == 9 || m == 11 then 30
    else 31
  }

  /** The dates Python's `date` can hold: years 1 to 9999 of the proleptic Gregorian calendar. */
  predicate ValidDate(d: Date) {
    && 1 <= d.year <= 9999
    && 1 <= d.month <= 12
    && 1 <= d.day <= DaysInMonth(d.year, d.month)
  }

  predicate ValidDateTime(t: DateTime) {
    && ValidDate(t.date)
    && 0 <= t.hour < 24 && 0 <= t.minute < 60 && 0 <= t.second < 60
    && 0 <= t.microsecond < 1000000
  }

  /** `date.isoformat()`: `YYYY-MM-DD`, the extended calendar-date form of ISO 8601:2004 section 4.1.2.2. */
  function DateIso(d: Date): (s: string)
    requires ValidDate(d)
  {
    PadDigits(d.year, 4) + "-" + PadDigits(d.month, 2) + "-" + PadDigits(d.day, 2)
  }

  /** `datetime.isoformat()` of a naive datetime: `YYYY-MM-DDTHH:MM:SS`, then `.ffffff` when the microseconds are not zero. */
  function DateTimeIso(t: DateTime): (s: string)
    requires ValidDateTime(t)
  {
    DateIso(t.date) + "T" + PadDigits(t.hour, 2) + ":" + PadDigits(t.minute, 2) + ":" + PadDigits(t.second, 2)
    + (if t.microsecond != 0 then "." + PadDigits(t.microsecond, 6) else "")
  }

  /** The ISO text of a datetime starts with the ISO text of its date and a `T`. */
  lemma DateTimeIsoStartsWithDate(t: DateTime)
    requires ValidDateTime(t)
    ensures |DateTimeIso(t)| >= 19 && DateTimeIso(t)[..10] == DateIso(t.date) && DateTimeIso(t)[10] == 'T'
  {
    var d := DateIso(t.date);
    var rest := PadDigits(t.hour, 2) + ":" + PadDigits(t.minute, 2) + ":" + PadDigits(t.second, 2)
                + (if t.microsecond != 0 then "." + PadDigits(t.microsecond, 6) else "");
    assert DateTimeIso(t) == d + "T" + rest;
    assert |d| == 10;
  }

  /** `date.fromisoformat` restricted to the `YYYY-MM-DD` form: the inverse of `DateIso`. */
  function ParseDateIso(s: string): (r: Option<Date>)
    ensures r.Some? ==> ValidDate(r.value)
  {
    if |s| == 10 && s[4] == '-' && s[7] == '-'
       && AllDigits(s[..4]) && AllDigits(s[5..7]) && AllDigits(s[8..])
    then
      var d := Date(ParseNat(s[..4]), ParseNat(s[5..7]), ParseNat(s[8..]));
      if ValidDate(d) then Some(d) else None
    else None
  }

  /** A string of digits is the zero-padded text of its own value. */
  lemma {:induction false} PadParsedDigits(s: string)
    requires AllDigits(s)
    ensures PadDigits(ParseNat(s), |s|) == s
    decreases |s|
  {
    if s != [] {
      var init, c := s[..|s| - 1], s[|s| - 1];
      var n := ParseNat(s);
      assert n == 10 * ParseNat(init) + DigitValue(c);
      assert n / 10 == ParseNat(init) && n % 10 == DigitValue(c);
      PadParsedDigits(init);
      assert DigitChar(DigitValue(c)) == c;
      assert s == init + [c];
    }
  }

  /** Reading the ISO text of a date gives the date back. */
  lemma DateIsoRoundTrip(d: Date)
    requires ValidDate(d)
    ensures ParseDateIso(DateIso(d)) == Some(d)
  {
    var s := DateIso(d);
    assert s[..4] == PadDigits(d.year, 4);
    assert s[5..7] == PadDigits(d.month, 2);
    assert s[8..] == PadDigits(d.day, 2);
    assert Pow10(4) == 10000 && Pow10(2) == 100;
    ParsePadDigits(d.year, 4);
    ParsePadDigits(d.month, 2);
    ParsePadDigits(d.day, 2);
  }

  /** Every text `ParseDateIso` accepts is the ISO text of the date it reads. */
  lemma ParseDateIsoExact(s: string)
    requires ParseDateIso(s).Some?
    ensures DateIso(ParseDateIso(s).value) == s
  {
    PadParsedDigits(s[..4]);
    PadParsedDigits(s[5..7]);
    PadParsedDigits(s[8..]);
    assert s == s[..4] + "-" + s[5..7] + "-" + s[8..];
  }

  lemma DateIsoInjective(d1: Date, d2: Date)
    requires ValidDate(d1) && ValidDate(d2)
    requires DateIso(d1) == DateIso(d2)
    ensures d1 == d2
  {
    DateIsoRoundTrip(d1);
    DateIsoRoundTrip(d2);
  }

  /** The enums of app/models: `PropulsionType`, `PurchaseTypeEnum` and `MarketEnum`. */
  datatype PropulsionType = Gasoline | Diesel | Electric | Hybrid
  datatype PurchaseType = New | Used | Refurbished
  datatype MarketType = Domestic | International

  datatype EnumType = PropulsionEnum | PurchaseTypeEnum | MarketEnum

  datatype EnumMember = Propulsion(p: PropulsionType) | Purchase(t: PurchaseType) | Market(m: MarketType)

  function TypeOf(e: EnumMember): EnumType {
    match e
    case Propulsion(_) => PropulsionEnum
    case Purchase(_) => PurchaseTypeEnum
    case Market(_) => MarketEnum
  }

  /** A member's `.value`, as declared in app/models; every one of them is a string. */
  function EnumValue(e: EnumMember): string {
    match e
    case Propulsion(Gasoline) => "Gasoline"
    case Propulsion(Diesel) => "Diesel"
    case Propulsion(Electric) => "Electric"
    case Propulsion(Hybrid) => "Hybrid"
    case Purchase(New) => "New"
    case Purchase(Used) => "Used"
    case Purchase(Refurbished) => "Refurbished"
    case Market(Domestic) => "Domestic"
    case Market(International) => "International"
  }

  /** Lookup by value, as `PropulsionType("Electric")` does. */
  function EnumFromValue(t: EnumType, v: string): (r: Option<EnumMember>)
    ensures r.Some? ==> TypeOf(r.value) == t && EnumValue(r.value) == v
  {
    match t
    case PropulsionEnum =>
      if v == "Gasoline" then Some(Propulsion(Gasoline))
      else if v == "Diesel" then Some(Propulsion(Diesel))
      else if v == "Electric" then Some(Propulsion(Electric))
      else if v == "Hybrid" then Some(Propulsion(Hybrid))
      else None
    case PurchaseTypeEnum =>
      if v == "New" then Some(Purchase(New))
      else if v == "Used" then Some(Purchase(Used))
      else if v == "Refurbished" then Some(Purchase(Refurbished))
      else None
    case MarketEnum =>
      if v == "Domestic" then Some(Market(Domestic))
      else if v == "International" then Some(Market(International))
      else None
  }

  /** Within one enum, the value names the member: lookup by value finds it again. */
  lemma EnumValueRoundTrip(e: EnumMember)
    ensures EnumFromValue(TypeOf(e), EnumValue(e)) == Some(e)
  {
  }

  /** The Python values `default_serializer` can be handed. */
  datatype Obj =
    | DateObj(d: Date)
    | DateTimeObj(t: DateTime)
    | EnumObj(e: EnumMember)
    | OtherObj(typeRepr: string)   // any other object, with `str(type(obj))`

  predicate ValidObj(o: Obj) {
    match o
    case DateObj(d) => ValidDate(d)
    case DateTimeObj(t) => ValidDateTime(t)
    case _ => true
  }

  /** A value `default_serializer` returns, or the `TypeError` it raises. */
  datatype Encoded = Encoded(text: string) | TypeError(message: string)

  function NotSerializable(typeRepr: string): string {
    "Type " + typeRepr + " not serializable"
  }

  function DefaultSerializer(o: Obj): (r: Encoded)
    requires ValidObj(o)
    ensures r.TypeError? <==> o.OtherObj?
    ensures o.OtherObj? ==> r.message == NotSerializable(o.typeRepr)
    ensures o.DateObj? ==> ParseDateIso(r.text) == Some(o.d)
    ensures o.DateTimeObj? ==> |r.text| >= 19 && r.text[..10] == DateIso(o.t.date) && r.text[10] == 'T'
    ensures o.EnumObj? ==> EnumFromValue(TypeOf(o.e), r.text) == Some(o.e)
  {
    match o
    case DateObj(d) =>
      DateIsoRoundTrip(d);
      Encoded(DateIso(d))
    case DateTimeObj(t) =>
      DateTimeIsoStartsWithDate(t);
      Encoded(DateTimeIso(t))
    case EnumObj(e) =>
      Encoded(EnumValue(e))
    case OtherObj(typeRepr) =>
      TypeError(NotSerializable(typeRepr))
  }
}
