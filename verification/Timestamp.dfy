/** Timestamps given on the command line: as a duration, as a date and time, or as seconds with a fraction. */
module Timestamp {
  import opened Wrappers
  import opened Text
  import opened Strconv

  const BILLION: int := 1_000_000_000

  /** A point in time: whole seconds since the epoch and the nanoseconds after them. */
  datatype InstantParts = Instant(sec: int64, nsec: nat)
  type Instant = i: InstantParts | i.nsec < BILLION witness Instant(0, 0)

  /** A point in time around which no duration leaves the range of seconds. */
  type Reference = i: Instant | -0x4000_0000_0000_0000 <= i.sec <= 0x4000_0000_0000_0000 witness Instant(0, 0)

  /**
   The library calls, as arbitrary functions: time.ParseDuration (in nanoseconds), time.Parse and time.ParseInLocation
   by layout and text, and the scaling by a negative power of ten in floating point, which is not exact.
   */
  datatype Library = Library(
    parseDuration: string -> Option<int64>,
    parse: (string, string) -> Option<Instant>,
    parseInLocation: (string, string) -> Option<Instant>,
    scaleDown: (int64, nat) -> int64)

  datatype Error = BadTime | NotATime

  // ---------- printing and parsing seconds

  lemma Pow10Nine()
    ensures Pow10(9) == BILLION
  {
  }

  function Padded(n: nat): (s: string)
    requires n < BILLION
    ensures |s| == 9 && AllDigits(s)
  {
    Pow10Nine();
    FormatUintLength(n, 9);
    Zeros(9 - |FormatUint(n)|) + FormatUint(n)
  }

  /** fmt.Sprintf("%d.%09d", sec, nsec). */
  function Print(t: Instant): string {
    FormatInt(t.sec) + "." + Padded(t.nsec)
  }

  lemma ScaleBound(n: int, width: nat)
    requires width <= 9 && -(Pow10(width) as int) < n < Pow10(width)
    ensures -BILLION < n * Pow10(9 - width) < BILLION
  {
    Pow10Nine();
    Pow10Add(width, 9 - width);
    var p: int, q: int := Pow10(width), Pow10(9 - width);
    assert n * q <= (p - 1) * q == p * q - q;
    assert n * q >= (1 - p) * q == q - p * q;
  }

  /** The nanoseconds of a fraction of `width` characters that was read as `n`. */
  function ScaleNanos(lib: Library, n: int64, width: nat): int64
    requires width <= 9 ==> -(Pow10(width) as int) < n < Pow10(width)
  {
    if width <= 9 then
      ScaleBound(n, width);
      n * Pow10(9 - width)
    else lib.scaleDown(n, width - 9)
  }

  /** parseTimestamp: on an error the numbers are what strconv.ParseInt left. */
  function ParseSeconds(lib: Library, value: string): (int64, int64, Option<NumError>) {
    var (secondsText, nanosText, hasNanos) := Cut(value, '.');
    var seconds := ParseInt(secondsText);
    if seconds.err.Some? then (seconds.n, 0, seconds.err)
    else if !hasNanos then (seconds.n, 0, None)
    else
      var nanos := ParseInt(nanosText);
      if nanos.err.Some? then (seconds.n, nanos.n, nanos.err)
      else
        ParseIntBound(nanosText);
        (seconds.n, ScaleNanos(lib, nanos.n, |nanosText|), None)
  }

  function ParseTimestamps(lib: Library, value: string, defaultSeconds: int64): (int64, int64, Option<NumError>) {
    if value == "" then (defaultSeconds, 0, None) else ParseSeconds(lib, value)
  }

  /** Only the empty text takes the default; it has no error and no nanoseconds. */
  lemma DefaultSeconds(lib: Library, defaultSeconds: int64)
    ensures ParseTimestamps(lib, "", defaultSeconds) == (defaultSeconds, 0, None)
    ensures forall value, other :: value != "" ==>
              ParseTimestamps(lib, value, defaultSeconds) == ParseTimestamps(lib, value, other)
  {
  }

  lemma ParseDigits(s: string)
    requires s != "" && AllDigits(s) && |s| <= 18
    ensures ParseInt(s).n == DecimalValue(s) && ParseInt(s).err == None
  {
    assert IsDigit(s[0]);
    ScanDigits(s);
    DecimalBound(s);
    Pow10Below19(|s|);
  }

  lemma ScaleNonNegative(a: nat, b: nat)
    ensures a * b >= 0
  {
  }

  /** The nanoseconds that a fraction of a second denotes. */
  function FractionNanos(fraction: string): (n: nat)
    requires AllDigits(fraction) && |fraction| <= 9
    ensures n < BILLION
  {
    DecimalBound(fraction);
    ScaleBound(DecimalValue(fraction), |fraction|);
    ScaleNonNegative(DecimalValue(fraction), Pow10(9 - |fraction|));
    DecimalValue(fraction) * Pow10(9 - |fraction|)
  }

  /** A fraction of one to nine digits is scaled to nanoseconds exactly, and stays below a second. */
  lemma FractionScaled(lib: Library, secondsText: string, fraction: string, defaultSeconds: int64)
    requires '.' !in secondsText && ParseInt(secondsText).err.None?
    requires AllDigits(fraction) && 1 <= |fraction| <= 9
    ensures ParseTimestamps(lib, secondsText + "." + fraction, defaultSeconds) ==
            (ParseInt(secondsText).n, FractionNanos(fraction), None)
  {
    var value := secondsText + "." + fraction;
    CutConcat(secondsText, '.', fraction);
    ParseDigits(fraction);
    assert Cut(value, '.') == (secondsText, fraction, true);
    DecimalBound(fraction);
    assert ScaleNanos(lib, DecimalValue(fraction), |fraction|) == FractionNanos(fraction);
    assert value != "";
  }

  lemma PaddedValue(n: nat)
    requires n < BILLION
    ensures ParseInt(Padded(n)) == Parsed(n, None)
  {
    var s := Padded(n);
    assert IsDigit(s[0]);
    ScanFormatUint(n);
    ScanZeros(9 - |FormatUint(n)|, FormatUint(n));
  }

  lemma PaddedDecimal(n: nat)
    requires n < BILLION
    ensures DecimalValue(Padded(n)) == n
  {
    Pow10Nine();
    FormatUintLength(n, 9);
    ScanFormatUint(n);
    ScanZeros(9 - |FormatUint(n)|, FormatUint(n));
    ScanExactly(Padded(n));
  }

  lemma FormatIntInteger(n: int64)
    ensures Integer(FormatInt(n)) && IntegerValue(FormatInt(n)) == n
  {
    ParseFormatInt(n);
    ParseIntAccepts(FormatInt(n));
  }

  /** The printed form: the seconds, a point, and always nine digits for the nanoseconds. */
  lemma PrintedForm(t: Instant)
    ensures exists seconds: string, nanos: string ::
              && Print(t) == seconds + "." + nanos
              && Integer(seconds) && IntegerValue(seconds) == t.sec
              && |nanos| == 9 && AllDigits(nanos) && DecimalValue(nanos) == t.nsec
  {
    FormatIntInteger(t.sec);
    PaddedDecimal(t.nsec);
    assert Print(t) == FormatInt(t.sec) + "." + Padded(t.nsec);
  }

  lemma FormatIntNoDot(n: int64)
    ensures '.' !in FormatInt(n) && FormatInt(n) != ""
  {
  }

  /** Every instant, over all 64-bit seconds, is read back from its printed form. */
  lemma ParsePrint(lib: Library, t: Instant, defaultSeconds: int64)
    ensures ParseTimestamps(lib, Print(t), defaultSeconds) == (t.sec, t.nsec, None)
  {
    FormatIntNoDot(t.sec);
    CutConcat(FormatInt(t.sec), '.', Padded(t.nsec));
    ParseFormatInt(t.sec);
    PaddedValue(t.nsec);
    assert t.nsec * Pow10(0) == t.nsec;
  }

  lemma ParseWhole(lib: Library, n: int64, defaultSeconds: int64)
    ensures ParseTimestamps(lib, FormatInt(n), defaultSeconds) == (n, 0, None)
  {
    FormatIntNoDot(n);
    ParseFormatInt(n);
  }

  // ---------- reading a time

  /** strings.ContainsAny(value, "zZ+"). */
  predicate MarksZone(value: string) {
    'z' in value || 'Z' in value || '+' in value
  }

  /** The layout that is tried, and whether the zone of the reference applies. */
  function SelectLayout(value: string): (string, bool) {
    var inLocation := !MarksZone(value) && Count(value, '-') != 3;
    var layout :=
      if '.' in value then
        if inLocation then "2006-01-02T15:04:05.999999999" else "2006-01-02T15:04:05.999999999Z07:00"
      else if 'T' in value then
        var colons := Count(value, ':');
        var tcolons := if !inLocation && !('z' in value || 'Z' in value) && colons > 0 then colons - 1 else colons;
        if inLocation then
          if tcolons == 0 then "2006-01-02T15" else if tcolons == 1 then "2006-01-02T15:04" else "2006-01-02T15:04:05"
        else
          if tcolons == 0 then "2006-01-02T15Z07:00"
          else if tcolons == 1 then "2006-01-02T15:04Z07:00"
          else "2006-01-02T15:04:05Z07:00"
      else if inLocation then "2006-01-02"
      else "2006-01-02Z07:00";
    (layout, inLocation)
  }

  /** Negation of a 64-bit integer: the least one is its own negation. */
  function Negated(d: int64): int64 {
    if d == MIN_INT64 then d else -(d as int)
  }

  function Quotient(d: int): int {
    if d >= 0 then d / BILLION else -((-d) / BILLION)
  }

  /** time.Time.Add, with division that truncates toward zero, and Unix: the whole seconds of the sum. */
  function AddSeconds(t: Instant, d: int): int {
    var n := t.nsec + (d - Quotient(d) * BILLION);
    t.sec + Quotient(d) + (if n >= BILLION then 1 else if n < 0 then -1 else 0)
  }

  /** What is left when the text is no duration: time.Parse or time.ParseInLocation with the layout that was chosen. */
  function ParsedTime(lib: Library, value: string): Option<Instant> {
    var (layout, inLocation) := SelectLayout(value);
    if inLocation then lib.parseInLocation(layout, value) else lib.parse(layout, value)
  }

  function GetTimestamp(lib: Library, value: string, reference: Reference): Result<string, Error> {
    var duration := lib.parseDuration(value);
    if value != "0" && duration.Some? then
      Ok(FormatInt(AddSeconds(reference, Negated(duration.value))))
    else
      var parsed := ParsedTime(lib, value);
      if parsed.None? then
        if '-' in value then Err(BadTime)
        else if ParseSeconds(lib, value).2.Some? then Err(NotATime)
        else Ok(value)
      else Ok(Print(parsed.value))
  }

  predicate IsDuration(lib: Library, value: string) {
    value != "0" && lib.parseDuration(value).Some?
  }

  /** The text reads as neither a duration nor a time. */
  predicate Unreadable(lib: Library, value: string) {
    !IsDuration(lib, value) && ParsedTime(lib, value).None?
  }

  /** A number of seconds as text: an integer, or two with a point between them. */
  ghost predicate IsSeconds(value: string) {
    var (secondsText, nanosText, hasNanos) := Cut(value, '.');
    Integer(secondsText) && (hasNanos ==> Integer(nanosText))
  }

  /**
   The documentation has GetTimestamp give back a text that it cannot read. It does so exactly if the text has no dash
   and is a number of seconds; every other such text is an error, and nothing else is.
   */
  lemma GivenBackExactly(lib: Library, value: string, reference: Reference)
    ensures GetTimestamp(lib, value, reference).Err? <==> Unreadable(lib, value) && ('-' in value || !IsSeconds(value))
    ensures Unreadable(lib, value) ==>
              (GetTimestamp(lib, value, reference) == Ok(value) <==> '-' !in value && IsSeconds(value))
    ensures GetTimestamp(lib, value, reference).Err? ==>
              GetTimestamp(lib, value, reference).error == if '-' in value then BadTime else NotATime
  {
    var (secondsText, nanosText, hasNanos) := Cut(value, '.');
    ParseIntAccepts(secondsText);
    ParseIntAccepts(nanosText);
  }

  /** What comes with an error: what was made of wrong seconds, and no nanoseconds; or right seconds. */
  lemma ParseFailures(lib: Library, value: string, defaultSeconds: int64)
    requires value != "" && !IsSeconds(value)
    ensures var (seconds, nanos, err) := ParseTimestamps(lib, value, defaultSeconds);
            var (secondsText, _, _) := Cut(value, '.');
            err.Some? && if Integer(secondsText) then seconds == IntegerValue(secondsText)
                        else nanos == 0 && seconds == ParseInt(secondsText).n
  {
    var (secondsText, nanosText, hasNanos) := Cut(value, '.');
    ParseIntAccepts(secondsText);
    ParseIntAccepts(nanosText);
  }

  /** Without any mark of a time or a zone the text is tried as a date. */
  lemma DateLayout(value: string)
    requires '.' !in value && 'T' !in value && !MarksZone(value) && Count(value, '-') != 3
    ensures SelectLayout(value) == ("2006-01-02", true)
  {
  }

  /** Two words joined by a dash are refused if no parser takes them. */
  lemma WordsRefused(lib: Library, a: string, b: string, reference: Reference)
    requires forall c :: c in a || c in b ==> c !in {'.', 'T', 'z', 'Z', '+', '-'}
    requires lib.parseDuration(a + "-" + b).None? && lib.parseInLocation("2006-01-02", a + "-" + b).None?
    ensures Unreadable(lib, a + "-" + b) && GetTimestamp(lib, a + "-" + b, reference) == Err(BadTime)
  {
    var value := a + "-" + b;
    CountConcat(a + "-", b, '-');
    CountConcat(a, "-", '-');
    CountZero(a, '-');
    CountZero(b, '-');
    DateLayout(value);
    assert value[|a|] == '-';
  }

  /** A text that is not given back: it has a dash, and no parser takes it. */
  lemma NotGivenBack(lib: Library, reference: Reference)
    requires lib.parseDuration("no-time").None? && lib.parseInLocation("2006-01-02", "no-time").None?
    ensures Unreadable(lib, "no-time") && GetTimestamp(lib, "no-time", reference) == Err(BadTime)
  {
    assert "no-time" == "no" + "-" + "time";
    WordsRefused(lib, "no", "time", reference);
  }

  datatype LogTimeError = InGet(getError: Error) | InParse(parseError: NumError)

  /** The since-time of the log command, as seconds and nanoseconds; None is the zero time of an empty value. */
  function LogTime(lib: Library, value: string, now: Reference): Result<Option<(int64, int64)>, LogTimeError> {
    if value == "" then Ok(None)
    else match GetTimestamp(lib, value, now)
         case Err(e) => Err(InGet(e))
         case Ok(text) =>
           var (s, ns, err) := ParseTimestamps(lib, text, 0);
           if err.Some? then Err(InParse(err.value)) else Ok(Some((s, ns)))
  }

  /** The whole seconds of a sum are its floor, whatever the signs. */
  lemma AddIsFloor(t: Instant, d: int)
    ensures AddSeconds(t, d) == (t.sec * BILLION + t.nsec + d) / BILLION
  {
  }

  /**
   What a value accepted as a duration means: the reference minus the duration, rounded down to a second. The one
   exception is the least duration, whose negation overflows: it is added.
   */
  lemma DurationIsSubtracted(lib: Library, value: string, reference: Reference, d: int64, defaultSeconds: int64)
    requires value != "0" && lib.parseDuration(value) == Some(d)
    ensures GetTimestamp(lib, value, reference).Ok?
    ensures var (s, ns, err) := ParseTimestamps(lib, GetTimestamp(lib, value, reference).value, defaultSeconds);
            && ns == 0 && err == None
            && (s == (reference.sec * BILLION + reference.nsec - d) / BILLION <==> d != MIN_INT64)
            && (d == MIN_INT64 ==> s == (reference.sec * BILLION + reference.nsec + d) / BILLION)
  {
    AddIsFloor(reference, Negated(d));
    AddIsFloor(reference, -(d as int));
    ParseWhole(lib, AddSeconds(reference, Negated(d)), defaultSeconds);
  }

  /** Every text that GetTimestamp returns is accepted by ParseTimestamps and names the instant it was made from. */
  lemma ReturnedTextIsAccepted(lib: Library, value: string, reference: Reference, defaultSeconds: int64)
    requires GetTimestamp(lib, value, reference).Ok?
    ensures var text := GetTimestamp(lib, value, reference).value;
            var (s, ns, err) := ParseTimestamps(lib, text, defaultSeconds);
            var parsed := ParsedTime(lib, value);
            && text != "" && err == None
            && (!IsDuration(lib, value) ==>
                  if parsed.Some? then (s, ns) == (parsed.value.sec, parsed.value.nsec)
                  else (s, ns, err) == ParseSeconds(lib, value))
  {
    var duration := lib.parseDuration(value);
    if value != "0" && duration.Some? {
      DurationIsSubtracted(lib, value, reference, duration.value, defaultSeconds);
      FormatIntNoDot(AddSeconds(reference, Negated(duration.value)));
    } else {
      var parsed := ParsedTime(lib, value);
      if parsed.Some? {
        ParsePrint(lib, parsed.value, defaultSeconds);
      }
    }
  }

  /**
   The second error path of the log command's parser is never taken: an error is GetTimestamp's. Only the empty text
   means no time at all.
   */
  lemma LogTimeErrors(lib: Library, value: string, now: Reference)
    ensures LogTime(lib, value, now).Err? <==>
              value != "" && Unreadable(lib, value) && ('-' in value || !IsSeconds(value))
    ensures LogTime(lib, value, now).Err? ==>
              LogTime(lib, value, now).error == InGet(if '-' in value then BadTime else NotATime)
    ensures LogTime(lib, value, now) == Ok(None) <==> value == ""
  {
    GivenBackExactly(lib, value, now);
    if value != "" && GetTimestamp(lib, value, now).Ok? {
      ReturnedTextIsAccepted(lib, value, now, 0);
    }
  }

  /** A time: its seconds and its nanoseconds. */
  lemma LogTimeOfTime(lib: Library, value: string, now: Reference, t: Instant)
    requires value != "" && !IsDuration(lib, value) && ParsedTime(lib, value) == Some(t)
    ensures LogTime(lib, value, now) == Ok(Some((t.sec, t.nsec)))
  {
    ReturnedTextIsAccepted(lib, value, now, 0);
  }

  /** A duration: now minus the duration, rounded down to a second. */
  lemma LogTimeOfDuration(lib: Library, value: string, now: Reference, d: int64)
    requires value != "" && value != "0" && lib.parseDuration(value) == Some(d) && d != MIN_INT64
    ensures LogTime(lib, value, now).Ok? && LogTime(lib, value, now).value.Some?
    ensures LogTime(lib, value, now).value.value.0 == (now.sec * BILLION + now.nsec - d) / BILLION
    ensures LogTime(lib, value, now).value.value.1 == 0
  {
    DurationIsSubtracted(lib, value, now, d, 0);
    ReturnedTextIsAccepted(lib, value, now, 0);
  }

  lemma IntegerNoDot(s: string)
    requires Integer(s)
    ensures '.' !in s && s != ""
  {
    assert s == [s[0]] + s[1..];
  }

  /** A number of seconds that reads as nothing else: the number. */
  lemma LogTimeOfSeconds(lib: Library, value: string, now: Reference)
    requires Unreadable(lib, value) && Integer(value) && '-' !in value
    ensures LogTime(lib, value, now) == Ok(Some((IntegerValue(value), 0)))
  {
    IntegerNoDot(value);
    ParseIntAccepts(value);
    GivenBackExactly(lib, value, now);
  }

  /** Two integers around a point: the seconds, and the fraction scaled by the number of its characters. */
  lemma LogTimeOfFraction(lib: Library, seconds: string, fraction: string, now: Reference)
    requires Unreadable(lib, seconds + "." + fraction) && '-' !in seconds + "." + fraction
    requires Integer(seconds) && Integer(fraction) && |fraction| <= 9
    ensures LogTime(lib, seconds + "." + fraction, now).Ok? && LogTime(lib, seconds + "." + fraction, now).value.Some?
    ensures LogTime(lib, seconds + "." + fraction, now).value.value.0 == IntegerValue(seconds)
    ensures LogTime(lib, seconds + "." + fraction, now).value.value.1 == IntegerValue(fraction) * Pow10(9 - |fraction|)
  {
    var value := seconds + "." + fraction;
    IntegerNoDot(seconds);
    CutConcat(seconds, '.', fraction);
    ParseIntAccepts(seconds);
    ParseIntAccepts(fraction);
    GivenBackExactly(lib, value, now);
    assert value[|seconds|] == '.';
  }

  // ---------- the layout has the components of the text

  datatype TimeOfDay =
    | Absent
    | Hours(hh: string)
    | Minutes(hh: string, mm: string)
    | Seconds(hh: string, mm: string, ss: string)
    | Fraction(hh: string, mm: string, ss: string, frac: string)

  /** `Letter` is z or Z; an offset has a sign, hours and minutes. */
  datatype Zone = NoZone | Letter(upper: bool) | Offset(plus: bool, hh: string, mm: string)

  ghost predicate Numeric(t: TimeOfDay) {
    match t
    case Absent => true
    case Hours(hh) => AllDigits(hh)
    case Minutes(hh, mm) => AllDigits(hh) && AllDigits(mm)
    case Seconds(hh, mm, ss) => AllDigits(hh) && AllDigits(mm) && AllDigits(ss)
    case Fraction(hh, mm, ss, frac) => AllDigits(hh) && AllDigits(mm) && AllDigits(ss) && AllDigits(frac)
  }

  function TimeText(t: TimeOfDay): string {
    match t
    case Absent => ""
    case Hours(hh) => "T" + hh
    case Minutes(hh, mm) => "T" + hh + (":" + mm)
    case Seconds(hh, mm, ss) => "T" + hh + (":" + mm) + (":" + ss)
    case Fraction(hh, mm, ss, frac) => "T" + hh + (":" + mm) + (":" + ss) + ("." + frac)
  }

  function ZoneText(z: Zone): string {
    match z
    case NoZone => ""
    case Letter(upper) => if upper then "Z" else "z"
    case Offset(plus, hh, mm) => (if plus then "+" else "-") + hh + (":" + mm)
  }

  /** The reference time of Go's layouts, cut down to the components that are present. */
  function LayoutOf(t: TimeOfDay, z: Zone): string {
    "2006-01-02"
    + (match t
       case Absent => ""
       case Hours(_) => "T15"
       case Minutes(_, _) => "T15:04"
       case Seconds(_, _, _) => "T15:04:05"
       case Fraction(_, _, _, _) => "T15:04:05.999999999")
    + (if z.NoZone? then "" else "Z07:00")
  }

  lemma {:induction false} DigitsCount(s: string, c: char)
    requires AllDigits(s) && !IsDigit(c)
    ensures Count(s, c) == 0
  {
    CountZero(s, c);
  }

  lemma MarkedCount(mark: char, s: string, c: char)
    requires AllDigits(s) && !IsDigit(c)
    ensures Count([mark] + s, c) == if mark == c then 1 else 0
  {
    assert ([mark] + s)[1..] == s;
    DigitsCount(s, c);
  }

  lemma DateCount(year: string, month: string, day: string, c: char)
    requires AllDigits(year) && AllDigits(month) && AllDigits(day) && !IsDigit(c)
    ensures Count(year + ("-" + month) + ("-" + day), c) == if c == '-' then 2 else 0
  {
    DigitsCount(year, c);
    MarkedCount('-', month, c);
    MarkedCount('-', day, c);
    CountConcat(year, "-" + month, c);
    CountConcat(year + ("-" + month), "-" + day, c);
  }

  /** How often a character other than a digit occurs in a time and in a zone. */
  function InTime(t: TimeOfDay, c: char): nat {
    if c == 'T' then (if t.Absent? then 0 else 1)
    else if c == ':' then (if t.Minutes? then 1 else if t.Seconds? || t.Fraction? then 2 else 0)
    else if c == '.' then (if t.Fraction? then 1 else 0)
    else 0
  }

  function InZone(z: Zone, c: char): nat {
    match z
    case NoZone => 0
    case Letter(upper) => if c == (if upper then 'Z' else 'z') then 1 else 0
    case Offset(plus, _, _) => if c == ':' || c == (if plus then '+' else '-') then 1 else 0
  }

  lemma TimeCount(t: TimeOfDay, c: char)
    requires Numeric(t) && !IsDigit(c)
    ensures Count(TimeText(t), c) == InTime(t, c)
  {
    if !t.Absent? {
      MarkedCount('T', t.hh, c);
      if !t.Hours? {
        MarkedCount(':', t.mm, c);
        CountConcat("T" + t.hh, ":" + t.mm, c);
        if !t.Minutes? {
          MarkedCount(':', t.ss, c);
          CountConcat("T" + t.hh + (":" + t.mm), ":" + t.ss, c);
          if t.Fraction? {
            MarkedCount('.', t.frac, c);
            CountConcat("T" + t.hh + (":" + t.mm) + (":" + t.ss), "." + t.frac, c);
          }
        }
      }
    }
  }

  lemma ZoneCount(z: Zone, c: char)
    requires z.Offset? ==> AllDigits(z.hh) && AllDigits(z.mm)
    requires !IsDigit(c)
    ensures Count(ZoneText(z), c) == InZone(z, c)
  {
    match z
    case NoZone =>
    case Letter(upper) => MarkedCount(if upper then 'Z' else 'z', "", c);
    case Offset(plus, hh, mm) =>
      var sign := if plus then '+' else '-';
      MarkedCount(sign, hh, c);
      MarkedCount(':', mm, c);
      CountConcat([sign] + hh, ":" + mm, c);
  }

  function DateTimeText(year: string, month: string, day: string, t: TimeOfDay, z: Zone): string {
    year + ("-" + month) + ("-" + day) + TimeText(t) + ZoneText(z)
  }

  ghost predicate NumericText(year: string, month: string, day: string, t: TimeOfDay, z: Zone) {
    && AllDigits(year) && AllDigits(month) && AllDigits(day) && Numeric(t)
    && (z.Offset? ==> AllDigits(z.hh) && AllDigits(z.mm))
  }

  /** Counting in a whole text adds up what its date, time and zone hold. */
  lemma TextCount(year: string, month: string, day: string, t: TimeOfDay, z: Zone, c: char)
    requires NumericText(year, month, day, t, z) && !IsDigit(c)
    ensures var s := DateTimeText(year, month, day, t, z);
            && Count(s, c) == (if c == '-' then 2 else 0) + InTime(t, c) + InZone(z, c)
            && (c in s <==> Count(s, c) > 0)
  {
    var date := year + ("-" + month) + ("-" + day);
    DateCount(year, month, day, c);
    TimeCount(t, c);
    ZoneCount(z, c);
    CountConcat(date, TimeText(t), c);
    CountConcat(date + TimeText(t), ZoneText(z), c);
    CountZero(date + TimeText(t) + ZoneText(z), c);
  }

  /** The long layouts are the short ones with components added. */
  lemma Layouts(t: TimeOfDay, z: Zone)
    ensures LayoutOf(t, z) ==
            match t
            case Absent => if z.NoZone? then "2006-01-02" else "2006-01-02Z07:00"
            case Hours(_) => if z.NoZone? then "2006-01-02T15" else "2006-01-02T15Z07:00"
            case Minutes(_, _) => if z.NoZone? then "2006-01-02T15:04" else "2006-01-02T15:04Z07:00"
            case Seconds(_, _, _) => if z.NoZone? then "2006-01-02T15:04:05" else "2006-01-02T15:04:05Z07:00"
            case Fraction(_, _, _, _) =>
              if z.NoZone? then "2006-01-02T15:04:05.999999999" else "2006-01-02T15:04:05.999999999Z07:00"
  {
  }

  /** How often each character but the digits occurs in `s`. */
  ghost predicate Counted(s: string, t: TimeOfDay, z: Zone) {
    forall c: char :: !IsDigit(c) ==>
      && Count(s, c) == (if c == '-' then 2 else 0) + InTime(t, c) + InZone(z, c)
      && (c in s <==> Count(s, c) > 0)
  }

  lemma TextCounted(year: string, month: string, day: string, t: TimeOfDay, z: Zone)
    requires NumericText(year, month, day, t, z)
    ensures Counted(DateTimeText(year, month, day, t, z), t, z)
  {
    forall c: char | !IsDigit(c)
      ensures var s := DateTimeText(year, month, day, t, z);
              && Count(s, c) == (if c == '-' then 2 else 0) + InTime(t, c) + InZone(z, c)
              && (c in s <==> Count(s, c) > 0)
    {
      TextCount(year, month, day, t, z, c);
    }
  }

  /** The marks of a zone: a letter, a plus, or a third dash. */
  lemma ZoneMarks(s: string, t: TimeOfDay, z: Zone)
    requires Counted(s, t, z)
    ensures 'z' in s || 'Z' in s <==> z.Letter?
    ensures '+' in s <==> z.Offset? && z.plus
    ensures Count(s, '-') == 3 <==> z.Offset? && !z.plus
  {
    assert Count(s, 'z') + Count(s, 'Z') == if z.Letter? then 1 else 0;
    assert Count(s, '+') == if z.Offset? && z.plus then 1 else 0;
  }

  /** The marks of a time: a T, its colons besides the one of an offset, and a dot. */
  lemma TimeMarks(s: string, t: TimeOfDay, z: Zone)
    requires Counted(s, t, z)
    ensures 'T' in s <==> !t.Absent?
    ensures '.' in s <==> t.Fraction?
    ensures Count(s, ':') == InTime(t, ':') + (if z.Offset? then 1 else 0)
  {
    assert Count(s, 'T') == if t.Absent? then 0 else 1;
    assert Count(s, '.') == if t.Fraction? then 1 else 0;
  }

  lemma LayoutOfCounted(s: string, t: TimeOfDay, z: Zone)
    requires Counted(s, t, z)
    ensures SelectLayout(s) == (LayoutOf(t, z), z.NoZone?)
  {
    ZoneMarks(s, t, z);
    TimeMarks(s, t, z);
    Layouts(t, z);
  }

  /**
   For a date with or without a time down to any precision, and with or without a zone in any form, the layout that is
   tried has exactly the components of the text, and the zone of the reference is used exactly if the text has none.
   */
  lemma LayoutMatchesText(year: string, month: string, day: string, t: TimeOfDay, z: Zone)
    requires NumericText(year, month, day, t, z)
    ensures SelectLayout(DateTimeText(year, month, day, t, z)) == (LayoutOf(t, z), z.NoZone?)
  {
    TextCounted(year, month, day, t, z);
    LayoutOfCounted(DateTimeText(year, month, day, t, z), t, z);
  }

  /** A date and time in text goes to the right parser with the right layout, and what that answers is the result. */
  lemma LogTimeOfText(lib: Library, year: string, month: string, day: string, t: TimeOfDay, z: Zone, now: Reference,
      answer: Instant)
    requires NumericText(year, month, day, t, z)
    requires lib.parseDuration(DateTimeText(year, month, day, t, z)).None?
    requires z.NoZone? ==> lib.parseInLocation(LayoutOf(t, z), DateTimeText(year, month, day, t, z)) == Some(answer)
    requires !z.NoZone? ==> lib.parse(LayoutOf(t, z), DateTimeText(year, month, day, t, z)) == Some(answer)
    ensures LogTime(lib, DateTimeText(year, month, day, t, z), now) == Ok(Some((answer.sec, answer.nsec)))
  {
    LayoutMatchesText(year, month, day, t, z);
    LogTimeOfTime(lib, DateTimeText(year, month, day, t, z), now, answer);
  }
}
