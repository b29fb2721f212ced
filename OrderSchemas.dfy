/** The order schemas: the create body (`OrderBase`/`OrderCreate`), the
    partial update body (`OrderUpdate`), their field bounds and their two
    validators, date of birth and status. The date check is about digit
    counts and separators only: it does not look at month, day or year
    values. */
module OrderSchemas {
  import opened Wrappers
  import opened Text
  import opened Schema

  const DobMessage := "Date of birth must be in format YYYY-MM-DD or MM/DD/YYYY"
  const StatusMessage := "Status must be one of: pending, confirmed, processing, shipped, delivered, cancelled"

  const AllowedStatuses: seq<string> := ["pending", "confirmed", "processing", "shipped", "delivered", "cancelled"]
  const DefaultStatus := "pending"

  // ---- date of birth ----

  /** `\d{4}-\d{2}-\d{2}` over the whole of `b`. */
  predicate IsoShape(b: string) {
    |b| == 10 && AllDigits(b[..4]) && b[4] == '-' && AllDigits(b[5..7]) && b[7] == '-' && AllDigits(b[8..])
  }

  /** `\d{2}/\d{2}/\d{4}` over the whole of `b`. */
  predicate SlashShape(b: string) {
    |b| == 10 && AllDigits(b[..2]) && b[2] == '/' && AllDigits(b[3..5]) && b[5] == '/' && AllDigits(b[6..])
  }

  /** `\d{1,2}/\d{1,2}/\d{4}` over the whole of `b`. */
  predicate ShortSlashShape(b: string) {
    var parts := SplitOn(b, '/');
    && |parts| == 3
    && 1 <= |parts[0]| <= 2 && AllDigits(parts[0])
    && 1 <= |parts[1]| <= 2 && AllDigits(parts[1])
    && |parts[2]| == 4 && AllDigits(parts[2])
  }

  /** `any(re.match(p, v) for p in date_patterns)`: none of the patterns
      can match a newline, so each matches `v` iff it matches `v` with one
      final newline dropped. */
  predicate DobMatches(v: string) {
    var b := BeforeFinalNewline(v);
    IsoShape(b) || SlashShape(b) || ShortSlashShape(b)
  }

  /** `validate_date_of_birth` (on both schemas): `None` passes, and a
      matching value is kept as written. */
  function ValidateDob(v: Option<string>): Result<Option<string>, Rejection> {
    if v.None? then Ok(None)
    else if !DobMatches(v.value) then Err(ValueError(DobMessage))
    else Ok(v)
  }

  /** A date of birth is accepted iff it is absent or matches one of the
      three shapes; it is stored unchanged, and the only refusal is the
      format message. */
  lemma DobAccepted(v: Option<string>)
    ensures ValidateDob(v).Ok? <==> v.None? || DobMatches(v.value)
    ensures ValidateDob(v).Ok? ==> ValidateDob(v).value == v
    ensures ValidateDob(v).Err? ==> ValidateDob(v).error == ValueError(DobMessage)
  {
  }

  /** `m + "/" + d + "/" + y` splits back into its three parts when none of
      them holds a slash. */
  lemma SplitThree(m: string, d: string, y: string)
    requires '/' !in m && '/' !in d && '/' !in y
    ensures SplitOn(m + "/" + d + "/" + y, '/') == [m, d, y]
  {
    assert m + "/" + d + "/" + y == m + ['/'] + (d + "/" + y);
    SplitOnFirst(m, d + "/" + y, '/');
    assert d + "/" + y == d + ['/'] + y;
    SplitOnFirst(d, y, '/');
    SplitOnAbsent(y, '/');
  }

  lemma DigitsHaveNoSlash(d: string)
    requires AllDigits(d)
    ensures '/' !in d
  {
    assert forall i :: 0 <= i < |d| ==> d[i] != '/';
  }

  /** The two-digit slash pattern adds nothing: every value it matches the
      one- or two-digit pattern matches too. */
  lemma SlashShapeIsShort(b: string)
    requires SlashShape(b)
    ensures ShortSlashShape(b)
  {
    var m, d, y := b[..2], b[3..5], b[6..];
    DigitsHaveNoSlash(m);
    DigitsHaveNoSlash(d);
    DigitsHaveNoSlash(y);
    assert b == m + "/" + d + "/" + y;
    SplitThree(m, d, y);
  }

  /** The date check does not look at ranges: month 13 and day 45 pass. */
  lemma OutOfRangeDatePasses(v: string)
    requires v == "13/45/1990"
    ensures ValidateDob(Some(v)) == Ok(Some(v))
  {
    assert BeforeFinalNewline(v) == v;
    DigitsHaveNoSlash("13");
    DigitsHaveNoSlash("45");
    DigitsHaveNoSlash("1990");
    assert v == "13" + "/" + "45" + "/" + "1990";
    SplitThree("13", "45", "1990");
  }

  /** Nor at the year: a year in the future passes. */
  lemma FutureIsoDatePasses(v: string)
    requires v == "2025-01-01"
    ensures ValidateDob(Some(v)) == Ok(Some(v))
  {
    assert BeforeFinalNewline(v) == v;
    assert IsoShape(v);
  }

  /** A value with no slash and the wrong length matches nothing. */
  lemma WordDateRefused(v: string)
    requires v == "invalid-date"
    ensures ValidateDob(Some(v)) == Err(ValueError(DobMessage))
  {
    assert BeforeFinalNewline(v) == v;
    assert '/' !in v;
    SplitOnAbsent(v, '/');
  }

  // ---- date of birth, checked for ranges and against today ----

  /** A calendar date as its year, month and day numbers. */
  datatype Date = Date(year: int, month: int, day: int)

  /** `a` falls strictly after `b`. */
  predicate After(a: Date, b: Date) {
    || a.year > b.year
    || (a.year == b.year && (a.month > b.month || (a.month == b.month && a.day > b.day)))
  }

  /** The numbers a shaped value spells: year first for `YYYY-MM-DD`, month
      first for the slash forms; `None` for a value of no shape. */
  function DobDate(b: string): (r: Option<Date>)
    ensures r.Some? <==> IsoShape(b) || ShortSlashShape(b)
  {
    if IsoShape(b) then Some(Date(DigitsValue(b[..4]), DigitsValue(b[5..7]), DigitsValue(b[8..])))
    else if ShortSlashShape(b) then
      var parts := SplitOn(b, '/');
      Some(Date(DigitsValue(parts[2]), DigitsValue(parts[0]), DigitsValue(parts[1])))
    else None
  }

  predicate InCalendarRange(d: Date) {
    1 <= d.month <= 12 && 1 <= d.day <= 31
  }

  /** The date-of-birth check the order tests call for: one of the three
      shapes, a month of 1-12, a day of 1-31, and not after `today`. */
  function ValidateDobChecked(v: Option<string>, today: Date): Result<Option<string>, Rejection> {
    if v.None? then Ok(None)
    else
      var d := DobDate(BeforeFinalNewline(v.value));
      if d.None? || !InCalendarRange(d.value) || After(d.value, today) then Err(ValueError(DobMessage))
      else Ok(v)
  }

  /** The checked validator refuses everything the shape check refuses,
      with the same message, and of what the shape check passes it refuses
      exactly the out-of-range and future dates. */
  lemma DobCheckedRefinesShape(v: Option<string>, today: Date)
    ensures ValidateDobChecked(v, today).Ok? ==> ValidateDob(v) == ValidateDobChecked(v, today)
    ensures ValidateDobChecked(v, today).Err? ==> ValidateDobChecked(v, today).error == ValueError(DobMessage)
    ensures v.Some? && ValidateDob(v).Ok? ==>
      var d := DobDate(BeforeFinalNewline(v.value));
      d.Some? && (ValidateDobChecked(v, today).Err? <==> !InCalendarRange(d.value) || After(d.value, today))
  {
    if v.Some? {
      var b := BeforeFinalNewline(v.value);
      if SlashShape(b) { SlashShapeIsShort(b); }
    }
  }

  /** A slash among the first four characters rules out `YYYY-MM-DD`. */
  lemma SlashNotIso(v: string, k: nat)
    requires k < 4 && k < |v| && v[k] == '/'
    ensures !IsoShape(v)
  {
    if |v| == 10 {
      assert v[..4][k] == '/';
    }
  }

  /** Digits joined by slashes spell month, day and year in that order. */
  lemma SlashDate(m: string, d: string, y: string)
    requires 1 <= |m| <= 2 && 1 <= |d| <= 2 && |y| == 4
    requires AllDigits(m) && AllDigits(d) && AllDigits(y)
    ensures var v := m + "/" + d + "/" + y;
      BeforeFinalNewline(v) == v && DobDate(v) == Some(Date(DigitsValue(y), DigitsValue(m), DigitsValue(d)))
  {
    var v := m + "/" + d + "/" + y;
    DigitsHaveNoSlash(m);
    DigitsHaveNoSlash(d);
    DigitsHaveNoSlash(y);
    SplitThree(m, d, y);
    assert ShortSlashShape(v);
    SlashNotIso(v, |m|);
    assert v[|v| - 1] == y[3];
    assert IsDigit(y[3]);
  }

  /** The checked validator refuses the test's month-13, day-45 date. */
  lemma CheckedRefusesOutOfRange(m: string, d: string, y: string, today: Date)
    requires m == "13" && d == "45" && y == "1990"
    ensures ValidateDobChecked(Some(m + "/" + d + "/" + y), today) == Err(ValueError(DobMessage))
  {
    SlashDate(m, d, y);
    DigitsValue2(m);
  }

  /** `YYYY-MM-DD` spells year, month and day in that order. */
  lemma IsoDate(y: string, m: string, d: string)
    requires |y| == 4 && |m| == 2 && |d| == 2
    requires AllDigits(y) && AllDigits(m) && AllDigits(d)
    ensures var v := y + "-" + m + "-" + d;
      BeforeFinalNewline(v) == v && DobDate(v) == Some(Date(DigitsValue(y), DigitsValue(m), DigitsValue(d)))
  {
    var v := y + "-" + m + "-" + d;
    assert v[..4] == y && v[5..7] == m && v[8..] == d;
    assert IsoShape(v);
    assert v[|v| - 1] == d[1];
    assert IsDigit(d[1]);
  }

  /** Run before 2025, the checked validator refuses "2025-01-01". */
  lemma CheckedRefusesFuture(y: string, m: string, d: string, today: Date)
    requires y == "2025" && m == "01" && d == "01" && After(Date(2025, 1, 1), today)
    ensures ValidateDobChecked(Some(y + "-" + m + "-" + d), today) == Err(ValueError(DobMessage))
  {
    IsoDate(y, m, d);
    DigitsValue4(y);
    DigitsValue2(m);
    DigitsValue2(d);
  }

  /** The checked validator keeps "1980-01-15", which the tests call valid. */
  lemma CheckedAcceptsIso(y: string, m: string, d: string, today: Date)
    requires y == "1980" && m == "01" && d == "15" && !After(Date(1980, 1, 15), today)
    ensures ValidateDobChecked(Some(y + "-" + m + "-" + d), today) == Ok(Some(y + "-" + m + "-" + d))
  {
    IsoDate(y, m, d);
    DigitsValue4(y);
    DigitsValue2(m);
    DigitsValue2(d);
  }

  /** The checked validator keeps "12/25/1990", which the tests call valid. */
  lemma CheckedAcceptsTwoDigitSlash(m: string, d: string, y: string, today: Date)
    requires m == "12" && d == "25" && y == "1990" && !After(Date(1990, 12, 25), today)
    ensures ValidateDobChecked(Some(m + "/" + d + "/" + y), today) == Ok(Some(m + "/" + d + "/" + y))
  {
    SlashDate(m, d, y);
    DigitsValue2(m);
    DigitsValue2(d);
    DigitsValue4(y);
  }

  /** The checked validator keeps "1/1/2000", which the tests call valid. */
  lemma CheckedAcceptsOneDigitSlash(m: string, d: string, y: string, today: Date)
    requires m == "1" && d == "1" && y == "2000" && !After(Date(2000, 1, 1), today)
    ensures ValidateDobChecked(Some(m + "/" + d + "/" + y), today) == Ok(Some(m + "/" + d + "/" + y))
  {
    SlashDate(m, d, y);
    DigitsValue1(m);
    DigitsValue1(d);
    DigitsValue4(y);
  }

  // ---- status ----

  /** `OrderBase.validate_status`: an omitted status takes the default
      without being validated; an explicit value, `null` included, must be
      allowed. */
  function ValidateStatus(v: Given<Option<string>>): Result<Option<string>, Rejection> {
    match v
    case Omitted => Ok(Some(DefaultStatus))
    case Given(s) => if s.Some? && s.value in AllowedStatuses then Ok(s) else Err(ValueError(StatusMessage))
  }

  /** `OrderUpdate.validate_status`: `None` passes. */
  function ValidateStatusUpdate(v: Option<string>): Result<Option<string>, Rejection> {
    if v.None? then Ok(None)
    else if v.value in AllowedStatuses then Ok(v)
    else Err(ValueError(StatusMessage))
  }

  /** A created order always holds an allowed status, "pending" when none
      was sent; an update may clear the status but never set a value
      outside the list. */
  lemma StatusAccepted(v: Given<Option<string>>, u: Option<string>)
    ensures ValidateStatus(v).Ok? ==> ValidateStatus(v).value.Some? && ValidateStatus(v).value.value in AllowedStatuses
    ensures ValidateStatus(v).Ok? <==> v.Omitted? || (v.value.Some? && v.value.value in AllowedStatuses)
    ensures v.Omitted? ==> ValidateStatus(v) == Ok(Some("pending"))
    ensures ValidateStatusUpdate(u).Ok? <==> u.None? || u.value in AllowedStatuses
    ensures ValidateStatusUpdate(u).Ok? ==> ValidateStatusUpdate(u).value == u
    ensures u.Some? ==> ValidateStatusUpdate(u) == ValidateStatus(Given(u))
  {
  }

  // ---- the bodies ----

  /** `max_length` on an optional string: `None` passes. */
  function MaxLength(v: Option<string>, hi: nat): (r: Option<Rejection>)
    ensures r.None? <==> v.None? || |v.value| <= hi
  {
    if v.Some? && |v.value| > hi then Some(TooLong(hi)) else None
  }

  /** `ge=0` on an optional amount. */
  function NonNegative(v: Option<real>): (r: Option<Rejection>)
    ensures r.None? <==> v.None? || v.value >= 0.0
  {
    if v.Some? && v.value < 0.0 then Some(BelowMinimum(0.0)) else None
  }

  function ErrorOf<T>(r: Result<T, Rejection>): (e: Option<Rejection>)
    ensures e.None? <==> r.Ok?
  {
    if r.Ok? then None else Some(r.error)
  }

  function Check(field: string, r: Option<Rejection>): (errs: seq<FieldError>)
    ensures errs == [] <==> r.None?
  {
    if r.Some? then [FieldError(field, r.value)] else []
  }

  /** A create body as sent; `status` may be left out. */
  datatype OrderInput = OrderInput(
    orderNumber: string,
    firstName: Option<string>,
    lastName: Option<string>,
    dateOfBirth: Option<string>,
    orderType: string,
    status: Given<Option<string>>,
    totalAmount: Option<real>,
    notes: Option<string>)

  /** A validated `OrderCreate`. */
  datatype OrderFields = OrderFields(
    orderNumber: string,
    firstName: Option<string>,
    lastName: Option<string>,
    dateOfBirth: Option<string>,
    orderType: string,
    status: Option<string>,
    totalAmount: Option<real>,
    notes: Option<string>)

  /** Every refusal of a create body, in field order. */
  function CreateErrors(inp: OrderInput): seq<FieldError> {
    Check("order_number", Bounds(inp.orderNumber, 1, 50))
    + Check("patient_first_name", MaxLength(inp.firstName, 100))
    + Check("patient_last_name", MaxLength(inp.lastName, 100))
    + Check("patient_date_of_birth", ErrorOf(ValidateDob(inp.dateOfBirth)))
    + Check("order_type", Bounds(inp.orderType, 1, 50))
    + Check("status", ErrorOf(ValidateStatus(inp.status)))
    + Check("total_amount", NonNegative(inp.totalAmount))
  }

  /** Parsing an `OrderCreate`: all refusals, or the validated fields. */
  function ValidateOrderCreate(inp: OrderInput): Result<OrderFields, seq<FieldError>> {
    var errs := CreateErrors(inp);
    if errs != [] then Err(errs)
    else Ok(OrderFields(inp.orderNumber, inp.firstName, inp.lastName, inp.dateOfBirth,
                        inp.orderType, ValidateStatus(inp.status).value, inp.totalAmount, inp.notes))
  }

  /** What every created order satisfies. */
  predicate WellFormed(o: OrderFields) {
    && 1 <= |o.orderNumber| <= 50 && 1 <= |o.orderType| <= 50
    && (o.firstName.None? || |o.firstName.value| <= 100)
    && (o.lastName.None? || |o.lastName.value| <= 100)
    && (o.dateOfBirth.None? || DobMatches(o.dateOfBirth.value))
    && o.status.Some? && o.status.value in AllowedStatuses
    && (o.totalAmount.None? || o.totalAmount.value >= 0.0)
  }

  /** A create body is accepted iff every field passes its own check; the
      accepted order is well formed and keeps every value sent, the status
      defaulting to "pending". */
  lemma OrderCreateAccepted(inp: OrderInput)
    ensures ValidateOrderCreate(inp).Ok? <==>
      && Bounds(inp.orderNumber, 1, 50).None? && Bounds(inp.orderType, 1, 50).None?
      && MaxLength(inp.firstName, 100).None? && MaxLength(inp.lastName, 100).None?
      && ValidateDob(inp.dateOfBirth).Ok? && ValidateStatus(inp.status).Ok?
      && NonNegative(inp.totalAmount).None?
    ensures ValidateOrderCreate(inp).Ok? ==>
      var o := ValidateOrderCreate(inp).value;
      && WellFormed(o)
      && o.orderNumber == inp.orderNumber && o.orderType == inp.orderType
      && o.firstName == inp.firstName && o.lastName == inp.lastName
      && o.dateOfBirth == inp.dateOfBirth && o.totalAmount == inp.totalAmount && o.notes == inp.notes
      && (inp.status.Omitted? ==> o.status == Some("pending"))
      && (inp.status.Given? ==> o.status == inp.status.value)
  {
    StatusAccepted(inp.status, None);
  }

  /** An unknown status and a negative amount are each refused, and
      reported under their own field. */
  lemma InvalidOrdersRefused(inp: OrderInput)
    requires inp.orderNumber == "INVALID-001" && inp.orderType == "Equipment"
    requires inp.firstName.None? && inp.lastName.None? && inp.dateOfBirth.None?
    ensures inp.status == Given(Some("invalid_status")) && inp.totalAmount.None? ==>
      ValidateOrderCreate(inp) == Err([FieldError("status", ValueError(StatusMessage))])
    ensures inp.status.Omitted? && inp.totalAmount == Some(-100.0) ==>
      ValidateOrderCreate(inp) == Err([FieldError("total_amount", BelowMinimum(0.0))])
  {
    assert Bounds(inp.orderNumber, 1, 50).None? && Bounds(inp.orderType, 1, 50).None?;
    var head := Check("order_number", Bounds(inp.orderNumber, 1, 50))
      + Check("patient_first_name", MaxLength(inp.firstName, 100))
      + Check("patient_last_name", MaxLength(inp.lastName, 100))
      + Check("patient_date_of_birth", ErrorOf(ValidateDob(inp.dateOfBirth)))
      + Check("order_type", Bounds(inp.orderType, 1, 50));
    assert head == [];
    var tail := Check("status", ErrorOf(ValidateStatus(inp.status)))
      + Check("total_amount", NonNegative(inp.totalAmount));
    assert CreateErrors(inp) == head + tail;
    if inp.status == Given(Some("invalid_status")) && inp.totalAmount.None? {
      assert "invalid_status" !in AllowedStatuses;
      assert tail == [FieldError("status", ValueError(StatusMessage))];
      assert CreateErrors(inp) == tail;
    }
    if inp.status.Omitted? && inp.totalAmount == Some(-100.0) {
      assert tail == [FieldError("total_amount", BelowMinimum(0.0))];
      assert CreateErrors(inp) == tail;
    }
  }

  /** An update body as sent: each field left out, sent as `null`, or sent
      with a value. Validation keeps the values as sent. */
  datatype OrderPatch = OrderPatch(
    orderNumber: Given<Option<string>>,
    firstName: Given<Option<string>>,
    lastName: Given<Option<string>>,
    dateOfBirth: Given<Option<string>>,
    orderType: Given<Option<string>>,
    status: Given<Option<string>>,
    totalAmount: Given<Option<real>>,
    notes: Given<Option<string>>)

  function Sent<T>(g: Given<Option<T>>): Option<T> {
    if g.Given? then g.value else None
  }

  /** `min_length`/`max_length` on an optional update field. */
  function OptionalBounds(v: Option<string>, lo: nat, hi: nat): (r: Option<Rejection>)
    ensures r.None? <==> v.None? || lo <= |v.value| <= hi
  {
    if v.Some? then Bounds(v.value, lo, hi) else None
  }

  function UpdateErrors(p: OrderPatch): seq<FieldError> {
    Check("order_number", OptionalBounds(Sent(p.orderNumber), 1, 50))
    + Check("patient_first_name", MaxLength(Sent(p.firstName), 100))
    + Check("patient_last_name", MaxLength(Sent(p.lastName), 100))
    + Check("patient_date_of_birth", ErrorOf(ValidateDob(Sent(p.dateOfBirth))))
    + Check("order_type", OptionalBounds(Sent(p.orderType), 1, 50))
    + Check("status", ErrorOf(ValidateStatusUpdate(Sent(p.status))))
    + Check("total_amount", NonNegative(Sent(p.totalAmount)))
  }

  /** Parsing an `OrderUpdate`. */
  function ValidateOrderUpdate(p: OrderPatch): Result<OrderPatch, seq<FieldError>> {
    var errs := UpdateErrors(p);
    if errs != [] then Err(errs) else Ok(p)
  }

  /** An update body is accepted iff every value it sends passes the same
      check as on create, `null` passing everywhere; it is kept as sent. */
  lemma OrderUpdateAccepted(p: OrderPatch)
    ensures ValidateOrderUpdate(p).Ok? <==>
      && OptionalBounds(Sent(p.orderNumber), 1, 50).None? && OptionalBounds(Sent(p.orderType), 1, 50).None?
      && MaxLength(Sent(p.firstName), 100).None? && MaxLength(Sent(p.lastName), 100).None?
      && (Sent(p.dateOfBirth).None? || DobMatches(Sent(p.dateOfBirth).value))
      && (Sent(p.status).None? || Sent(p.status).value in AllowedStatuses)
      && NonNegative(Sent(p.totalAmount)).None?
    ensures ValidateOrderUpdate(p).Ok? ==> ValidateOrderUpdate(p).value == p
  {
    DobAccepted(Sent(p.dateOfBirth));
    StatusAccepted(Omitted, Sent(p.status));
  }
}
