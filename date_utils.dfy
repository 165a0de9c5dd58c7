/**
 * The date helpers used to caption chat rooms: turning an untyped value into a Date,
 * and rendering a time as "Just now", "<h>h ago", "Yesterday" or a calendar date.
 * The clock reading `now` is a parameter; the host's date-string parser and its
 * locale date format are parameters too, since they belong to the JavaScript runtime.
 */
module DateUtils {
  import opened Wrappers
  import opened Decimal

  /** A Date's time value: milliseconds since the epoch, or NaN for an "Invalid Date". */
  datatype TimeValue = Time(ms: int) | NaN

  /** A JavaScript number. */
  datatype JsNumber = Finite(value: real) | NotANumber | PositiveInfinity | NegativeInfinity

  /** The `unknown` argument of the helpers: a Date, a string, a number, or anything else. */
  datatype JsValue = DateObject(time: TimeValue) | StringValue(s: string) | NumberValue(n: JsNumber) | OtherValue

  /** The largest distance from the epoch a Date can hold: 8.64e15 ms, i.e. 100,000,000 days. */
  const MaxTimeMs: int := 8_640_000_000_000_000

  const HourMs: int := 1000 * 60 * 60
  const DayMs: int := 24 * HourMs

  const JustNow := "Just now"
  const Yesterday := "Yesterday"
  /** What `toLocaleDateString` returns for a Date whose time value is NaN (ECMA-402). */
  const InvalidDateText := "Invalid Date"
  /** The default `fallback` of both formatters. */
  const DefaultFallback := "Invalid date"

  /** Rounding toward zero, as ToIntegerOrInfinity does with a finite number. */
  function Truncate(r: real): (i: int)
    ensures r >= 0.0 ==> 0 <= i && i as real <= r
    ensures r < 0.0 ==> i <= 0 && r <= i as real
    ensures r >= 0.0 ==> r - 1.0 < i as real
    ensures r < 0.0 ==> i as real < r + 1.0
  {
    if r >= 0.0 then r.Floor else -((-r).Floor)
  }

  /** TimeClip of ECMA-262: what `new Date(number)` stores. */
  function TimeClip(n: JsNumber): (t: TimeValue)
    ensures t.Time? ==> -MaxTimeMs <= t.ms <= MaxTimeMs
    ensures t.Time? <==> n.Finite? && -(MaxTimeMs as real) <= n.value <= MaxTimeMs as real
    ensures t.Time? ==> t.ms == Truncate(n.value)
  {
    match n
    case Finite(r) =>
      if r < -(MaxTimeMs as real) || r > MaxTimeMs as real then NaN else Time(Truncate(r))
    case _ => NaN
  }

  /**
   * `safeDate`: a Date is returned as it is; a string or a number becomes a Date unless its
   * time value is NaN; anything else gives null. `parse` is the host's `new Date(string)`.
   */
  function SafeDate(v: JsValue, parse: string -> TimeValue): (d: Option<TimeValue>)
    ensures v.DateObject? ==> d == Some(v.time)
    ensures v.OtherValue? ==> d == None
    ensures d == Some(NaN) ==> v.DateObject?
    ensures v.NumberValue? ==> (d.Some? <==> TimeClip(v.n).Time?)
    ensures v.NumberValue? && d.Some? ==> d.value == TimeClip(v.n)
    ensures v.StringValue? ==> (d.Some? <==> parse(v.s).Time?)
    ensures v.StringValue? && d.Some? ==> d.value == parse(v.s)
  {
    match v
    case DateObject(t) => Some(t)
    case StringValue(s) => if parse(s).NaN? then None else Some(parse(s))
    case NumberValue(n) => if TimeClip(n).NaN? then None else Some(TimeClip(n))
    case OtherValue => None
  }

  /** `isValidDate`, as written: whether `safeDate` gives a Date. */
  function IsValidDate(v: JsValue, parse: string -> TimeValue): (valid: bool)
    ensures valid <==>
      || v.DateObject?
      || (v.StringValue? && parse(v.s).Time?)
      || (v.NumberValue? && v.n.Finite? && -(MaxTimeMs as real) <= v.n.value <= MaxTimeMs as real)
  {
    SafeDate(v, parse) != None
  }

  /** `isValidDate` as its name and comment mean it: a Date with a real time value comes out. */
  function IsValidDateIntended(v: JsValue, parse: string -> TimeValue): (valid: bool)
    ensures valid <==> IsValidDate(v, parse) && v != DateObject(NaN)
    ensures valid <==> exists ms :: SafeDate(v, parse) == Some(Time(ms))
  {
    match SafeDate(v, parse)
    case Some(Time(ms)) => assert SafeDate(v, parse) == Some(Time(ms)); true
    case _ => false
  }

  /** An Invalid Date object passes `isValidDate` as written, and fails the intended check. */
  lemma InvalidDateObjectPasses(parse: string -> TimeValue)
    ensures IsValidDate(DateObject(NaN), parse)
    ensures !IsValidDateIntended(DateObject(NaN), parse)
  {
  }

  /** The floored hour count crosses 1, 24 and 48 exactly when the age in ms crosses 1, 24 and 48 hours. */
  lemma FloorHoursBuckets(age: int)
    ensures age / HourMs < 1 <==> age < HourMs
    ensures age / HourMs < 24 <==> age < DayMs
    ensures age / HourMs < 48 <==> age < 2 * DayMs
  {
    var q, r := age / HourMs, age % HourMs;
    assert age == q * 3600000 + r && 0 <= r < 3600000;
  }

  /**
   * The caption for a valid time `t` at `now`: the age in whole hours, floored, picks the bucket.
   * Dafny's `/` by a positive divisor is floor division, as `Math.floor(x / HourMs)` is.
   */
  function FormatAge(t: int, now: int, locale: int -> string): (text: string)
    ensures now - t < HourMs ==> text == JustNow
    ensures HourMs <= now - t < DayMs ==>
      1 <= (now - t) / HourMs <= 23 && text == DecimalString((now - t) / HourMs) + "h ago"
    ensures DayMs <= now - t < 2 * DayMs ==> text == Yesterday
    ensures 2 * DayMs <= now - t ==> text == locale(t)
  {
    FloorHoursBuckets(now - t);
    var diffInHours := (now - t) / HourMs;
    if diffInHours < 1 then JustNow
    else if diffInHours < 24 then DecimalString(diffInHours) + "h ago"
    else if diffInHours < 48 then Yesterday
    else locale(t)
  }

  /** The "h ago" caption reads back as the hour count it was made from, in one or two digits. */
  lemma HoursLabelReadsBack(h: nat)
    requires 1 <= h <= 23
    ensures var caption := DecimalString(h) + "h ago";
      |caption| >= 6 && ParseDecimal(caption[..|caption| - 5]) == h && |caption| - 5 <= 2
  {
    var caption := DecimalString(h) + "h ago";
    assert caption[..|caption| - 5] == DecimalString(h);
    ParseDecimalString(h);
    if h < 10 {
      DecimalStringLength(h, 0);
    } else {
      DecimalStringLength(h, 1);
    }
  }

  /** `safeFormatTime`; `locale` is the host's `toLocaleDateString` on a valid time value. */
  function SafeFormatTime(v: JsValue, fallback: string, now: int, parse: string -> TimeValue, locale: int -> string): (text: string)
    ensures SafeDate(v, parse) == None ==> text == fallback
    ensures v == DateObject(NaN) ==> text == InvalidDateText
    ensures (exists t :: SafeDate(v, parse) == Some(Time(t)) && now - t < HourMs) ==> text == JustNow
    ensures forall t :: SafeDate(v, parse) == Some(Time(t)) ==> text == FormatAge(t, now, locale)
  {
    match SafeDate(v, parse)
    case None => fallback
    // With a NaN time value every comparison is false and the last branch formats the Invalid Date.
    case Some(NaN) => InvalidDateText
    case Some(Time(t)) => FormatAge(t, now, locale)
  }

  /** `safeFormatDate`. */
  function SafeFormatDate(v: JsValue, fallback: string, parse: string -> TimeValue, locale: int -> string): (text: string)
    ensures SafeDate(v, parse) == None ==> text == fallback
    ensures v == DateObject(NaN) ==> text == InvalidDateText
    ensures forall t :: SafeDate(v, parse) == Some(Time(t)) ==> text == locale(t)
  {
    match SafeDate(v, parse)
    case None => fallback
    case Some(NaN) => InvalidDateText
    case Some(Time(t)) => locale(t)
  }

  /** The fallback is used only when no Date comes out: otherwise either formatter ignores it. */
  lemma FallbackOnlyWithoutDate(v: JsValue, f1: string, f2: string, now: int, parse: string -> TimeValue, locale: int -> string)
    ensures SafeDate(v, parse).Some? ==> SafeFormatTime(v, f1, now, parse, locale) == SafeFormatTime(v, f2, now, parse, locale)
    ensures SafeDate(v, parse).Some? ==> SafeFormatDate(v, f1, parse, locale) == SafeFormatDate(v, f2, parse, locale)
  {
  }

  /** Two days or more after `t`, and for an Invalid Date, both formatters print the same text. */
  lemma OldDatesFormatAlike(v: JsValue, fallback: string, now: int, parse: string -> TimeValue, locale: int -> string)
    requires SafeDate(v, parse) == Some(NaN) || (SafeDate(v, parse).Some? && SafeDate(v, parse).value.Time? && now - SafeDate(v, parse).value.ms >= 2 * DayMs)
    ensures SafeFormatTime(v, fallback, now, parse, locale) == SafeFormatDate(v, fallback, parse, locale)
  {
  }

  /**
   * With the default fallback, a string the host cannot parse reads "Invalid date" while an
   * Invalid Date object reads "Invalid Date": the two kinds of bad input stay distinguishable.
   */
  lemma DefaultFallbackDistinguishesBadInputs(s: string, now: int, parse: string -> TimeValue, locale: int -> string)
    requires parse(s).NaN?
    ensures SafeFormatTime(StringValue(s), DefaultFallback, now, parse, locale) == DefaultFallback
    ensures SafeFormatTime(DateObject(NaN), DefaultFallback, now, parse, locale) == InvalidDateText
    ensures DefaultFallback != InvalidDateText
  {
    assert DefaultFallback[8] != InvalidDateText[8];
  }
}
