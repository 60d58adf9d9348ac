/** Building-row timestamps: `datetime.strptime(text, "%d/%m/%Y %H:%M")`
    followed by `.isoformat()`.

    strptime turns the format into a regular expression and demands that it
    match the whole text: `%d` is `3[01]|[12]\d|0[1-9]|[1-9]| [1-9]`, `%m` is
    `1[0-2]|0[1-9]|[1-9]`, `%Y` is four digits, the blank becomes `\s+`,
    `%H` is `2[0-3]|[0-1]\d|\d` and `%M` is `[0-5]\d|\d`. The fields found
    must then form a real date: year 1 to 9999, a day that exists in that
    month (leap years included). isoformat writes `YYYY-MM-DDTHH:MM:SS`
    and, the seconds being zero, ends in `:00`. */
module Timestamps {
  import opened Values
  import opened Decimal

  datatype DateTime = DateTime(year: int, month: int, day: int, hour: int, minute: int)

  predicate IsLeapYear(y: int) {
    y % 4 == 0 && (y % 100 != 0 || y % 400 == 0)
  }

  function DaysInMonth(y: int, m: int): (n: int)
    requires 1 <= m <= 12
    ensures 28 <= n <= 31
    ensures n == 29 <==> m == 2 && IsLeapYear(y)
  {
    if m == 2 then (if IsLeapYear(y) then 29 else 28)
    else if m == 4 || m == 6 || m == 9 || m == 11 then 30
    else 31
  }

  /** What Python's `datetime` accepts (seconds and microseconds are zero here). */
  predicate IsValid(dt: DateTime) {
    && 1 <= dt.year <= 9999
    && 1 <= dt.month <= 12
    && 1 <= dt.day <= DaysInMonth(dt.year, dt.month)
    && 0 <= dt.hour < 24
    && 0 <= dt.minute < 60
  }

  /** The ranges the format's fields can spell, before the calendar check. */
  predicate InFieldRanges(dt: DateTime) {
    && 0 <= dt.year <= 9999
    && 1 <= dt.month <= 12
    && 1 <= dt.day <= 31
    && 0 <= dt.hour < 24
    && 0 <= dt.minute < 60
  }

  /** The characters `\s` matches in a str pattern: those for which Python's
      `str.isspace()` holds. */
  predicate IsPySpace(c: char) {
    var n := c as int;
    (0x09 <= n <= 0x0D) || (0x1C <= n <= 0x20) || n == 0x85 || n == 0xA0 || n == 0x1680
    || (0x2000 <= n <= 0x200A) || n == 0x2028 || n == 0x2029 || n == 0x202F || n == 0x205F
    || n == 0x3000
  }

  /** How many whitespace characters `s` starts with (what `\s+` consumes). */
  function LeadingSpaces(s: string): (k: nat)
    ensures k <= |s|
    ensures forall j :: 0 <= j < k ==> IsPySpace(s[j])
    ensures k < |s| ==> !IsPySpace(s[k])
  {
    if s == [] || !IsPySpace(s[0]) then 0 else 1 + LeadingSpaces(s[1..])
  }

  /** One one-or-two-digit field: two digits with a value in lo..hi, one
      digit with a value of at least lo, or (for `%d` only) a blank and a
      digit from 1 to 9. */
  function ParseField(t: string, lo: int, hi: int, spacePadded: bool): (r: Option<int>)
    requires 0 <= lo <= 1 && 9 <= hi
    ensures r.Some? ==> lo <= r.value <= hi
  {
    if |t| == 2 && IsDigit(t[0]) && IsDigit(t[1]) then
      var v := DigitValue(t[0]) * 10 + DigitValue(t[1]);
      if lo <= v <= hi then Some(v) else None
    else if |t| == 1 && IsDigit(t[0]) && lo <= DigitValue(t[0]) then
      Some(DigitValue(t[0]))
    else if spacePadded && |t| == 2 && t[0] == ' ' && IsDigit(t[1]) && 1 <= DigitValue(t[1]) then
      Some(DigitValue(t[1]))
    else None
  }

  /** The pieces the format is compiled into: the five fields, the literal
      separators, and the blank, which matches any run of whitespace. */
  datatype Directive = Day | Month | Year | Hour | Minute | Literal(c: char) | Blanks

  /** `%d/%m/%Y %H:%M`. */
  const FORMAT: seq<Directive> :=
    [Day, Literal('/'), Month, Literal('/'), Year, Blanks, Hour, Literal(':'), Minute]

  predicate IsField(d: Directive) {
    !d.Literal? && !d.Blanks?
  }

  /** The range of values a field's pattern can spell. */
  predicate FieldInRange(d: Directive, v: int) {
    match d
    case Day => 1 <= v <= 31
    case Month => 1 <= v <= 12
    case Year => 0 <= v <= 9999
    case Hour => 0 <= v < 24
    case Minute => 0 <= v < 60
    case _ => false
  }

  /** vs holds one value per field directive of ds, in order, each within
      its field's range. */
  predicate InRanges(ds: seq<Directive>, vs: seq<int>)
    decreases |ds|
  {
    if ds == [] then vs == []
    else if IsField(ds[0]) then vs != [] && FieldInRange(ds[0], vs[0]) && InRanges(ds[1..], vs[1..])
    else InRanges(ds[1..], vs)
  }

  /** The value field d's pattern gives the text t, when it matches all of t. */
  function FieldValue(d: Directive, t: string): (r: Option<int>)
    requires IsField(d)
    ensures r.Some? ==> FieldInRange(d, r.value)
  {
    match d
    case Day => ParseField(t, 1, 31, true)
    case Month => ParseField(t, 1, 12, false)
    case Hour => ParseField(t, 0, 23, false)
    case Minute => ParseField(t, 0, 59, false)
    case Year => if |t| == 4 && AllDigits(t) then FourDigitsBound(t); Some(DigitsValue(t)) else None
    case _ => None
  }

  /** A field's value followed by the values of the rest of the match. */
  function Then(v: Option<int>, rest: Option<seq<int>>): Option<seq<int>> {
    if v.Some? && rest.Some? then Some([v.value] + rest.value) else None
  }

  /** Matching directives ds against the whole of s, giving the field
      values. Where a field can be two characters or one, the two-character
      spelling is tried first and the one-character one when the rest of
      the text then fails to match, as the regular expression's alternation
      backtracks. The blank takes the whole run of whitespace: handing any
      of it back would leave a blank where the next field wants a digit. */
  function Match(ds: seq<Directive>, s: string): Option<seq<int>>
    decreases |ds|
  {
    if ds == [] then (if s == [] then Some([]) else None)
    else match ds[0]
      case Literal(c) =>
        if s != [] && s[0] == c then Match(ds[1..], s[1..]) else None
      case Blanks =>
        var k := LeadingSpaces(s);
        if k == 0 then None else Match(ds[1..], s[k..])
      case Year =>
        if |s| >= 4 then Then(FieldValue(Year, s[..4]), Match(ds[1..], s[4..])) else None
      case _ =>
        var two := if |s| >= 2 then Then(FieldValue(ds[0], s[..2]), Match(ds[1..], s[2..])) else None;
        if two.Some? then two
        else if |s| >= 1 then Then(FieldValue(ds[0], s[..1]), Match(ds[1..], s[1..]))
        else None
  }

  lemma ThenInRanges(ds: seq<Directive>, v: Option<int>, rest: Option<seq<int>>)
    requires ds != [] && IsField(ds[0])
    requires v.Some? ==> FieldInRange(ds[0], v.value)
    requires rest.Some? ==> InRanges(ds[1..], rest.value)
    ensures Then(v, rest).Some? ==> InRanges(ds, Then(v, rest).value)
  {
    if v.Some? && rest.Some? {
      var vs := [v.value] + rest.value;
      assert vs[0] == v.value && vs[1..] == rest.value;
    }
  }

  /** A match gives one value per field directive, each within its field's range. */
  lemma {:induction false} MatchInRanges(ds: seq<Directive>, s: string)
    ensures Match(ds, s).Some? ==> InRanges(ds, Match(ds, s).value)
    decreases |ds|
  {
    if ds != [] {
      var rest := ds[1..];
      match ds[0]
      case Literal(c) =>
        if s != [] { MatchInRanges(rest, s[1..]); }
      case Blanks =>
        MatchInRanges(rest, s[LeadingSpaces(s)..]);
      case Year =>
        if |s| >= 4 {
          MatchInRanges(rest, s[4..]);
          ThenInRanges(ds, FieldValue(Year, s[..4]), Match(rest, s[4..]));
        }
      case _ =>
        if |s| >= 2 {
          MatchInRanges(rest, s[2..]);
          ThenInRanges(ds, FieldValue(ds[0], s[..2]), Match(rest, s[2..]));
        }
        if |s| >= 1 {
          MatchInRanges(rest, s[1..]);
          ThenInRanges(ds, FieldValue(ds[0], s[..1]), Match(rest, s[1..]));
        }
    }
  }

  lemma InRangesSkip(ds: seq<Directive>, vs: seq<int>)
    requires ds != [] && !IsField(ds[0]) && InRanges(ds, vs)
    ensures InRanges(ds[1..], vs)
  {
  }

  lemma InRangesTake(ds: seq<Directive>, vs: seq<int>)
    requires ds != [] && IsField(ds[0]) && InRanges(ds, vs)
    ensures vs != [] && FieldInRange(ds[0], vs[0]) && InRanges(ds[1..], vs[1..])
  {
  }

  lemma InRangesYearTime(ds: seq<Directive>, vs: seq<int>)
    requires ds == [Year, Blanks, Hour, Literal(':'), Minute] && InRanges(ds, vs)
    ensures |vs| == 3
    ensures FieldInRange(Year, vs[0]) && FieldInRange(Hour, vs[1]) && FieldInRange(Minute, vs[2])
  {
    InRangesTake(ds, vs);
    var f1, v1 := ds[1..], vs[1..];
    InRangesSkip(f1, v1);
    var f2 := f1[1..];
    InRangesTake(f2, v1);
    var f3, v3 := f2[1..], v1[1..];
    InRangesSkip(f3, v3);
    var f4 := f3[1..];
    InRangesTake(f4, v3);
    assert f4[1..] == [];
    assert v3[1..] == [];
  }

  /** The values the whole format gives: day, month, year, hour, minute. */
  lemma InRangesFormat(vs: seq<int>)
    requires InRanges(FORMAT, vs)
    ensures |vs| == 5
    ensures FieldInRange(Day, vs[0]) && FieldInRange(Month, vs[1]) && FieldInRange(Year, vs[2])
    ensures FieldInRange(Hour, vs[3]) && FieldInRange(Minute, vs[4])
  {
    var f0 := FORMAT;
    InRangesTake(f0, vs);
    var f1, v1 := f0[1..], vs[1..];
    InRangesSkip(f1, v1);
    var f2 := f1[1..];
    InRangesTake(f2, v1);
    var f3, v3 := f2[1..], v1[1..];
    InRangesSkip(f3, v3);
    var f4 := f3[1..];
    InRangesYearTime(f4, v3);
    assert vs[2..] == v3;
  }

  /** The regular-expression match of the format against the whole text,
      giving the fields it spells (not yet checked as a date). */
  function MatchFormat(s: string): (r: Option<DateTime>)
    ensures r.Some? ==> InFieldRanges(r.value)
  {
    var m := Match(FORMAT, s);
    if m.None? then None
    else
      MatchInRanges(FORMAT, s);
      var v := m.value;
      InRangesFormat(v);
      Some(DateTime(v[2], v[1], v[0], v[3], v[4]))
  }

  lemma FourDigitsBound(t: string)
    requires |t| == 4 && AllDigits(t)
    ensures DigitsValue(t) <= 9999
  {
    DigitsValueBound(t);
    assert Pow10(4) == 10000;
  }

  /** `datetime.strptime(s, "%d/%m/%Y %H:%M")`: a real date and time, or the
      ValueError strptime raises. */
  function ParseTimestamp(s: string): (r: Result<DateTime, Error>)
    ensures r.Success? ==> IsValid(r.value)
    ensures r.Failure? ==> r.error == TimestampMismatch(s) || r.error == DateOutOfRange(s)
    ensures r.Failure? && r.error == DateOutOfRange(s) ==> MatchFormat(s).Some? && !IsValid(MatchFormat(s).value)
  {
    match MatchFormat(s)
    case None => Failure(TimestampMismatch(s))
    case Some(dt) => if IsValid(dt) then Success(dt) else Failure(DateOutOfRange(s))
  }

  // ------------------------------------------------------------ isoformat

  function Pad2(n: nat): (t: string)
    requires n < 100
    ensures |t| == 2 && AllDigits(t)
  {
    [DigitChar(n / 10), DigitChar(n % 10)]
  }

  function Pad4(n: nat): (t: string)
    requires n < 10000
    ensures |t| == 4 && AllDigits(t)
  {
    Pad2(n / 100) + Pad2(n % 100)
  }

  /** `.isoformat()` of a datetime whose seconds are zero. */
  function IsoFormat(dt: DateTime): (iso: string)
    requires IsValid(dt)
    ensures |iso| == 19 && iso[4] == '-' && iso[7] == '-' && iso[10] == 'T'
    ensures iso[13] == ':' && iso[16] == ':' && iso[17..] == "00"
  {
    Pad4(dt.year) + "-" + Pad2(dt.month) + "-" + Pad2(dt.day) + "T"
      + Pad2(dt.hour) + ":" + Pad2(dt.minute) + ":00"
  }

  /** The partner of IsoFormat: reads the fields back from their fixed positions. */
  function FromIso(iso: string): Option<DateTime>
  {
    if |iso| == 19 && AllDigits(iso[0..4]) && AllDigits(iso[5..7]) && AllDigits(iso[8..10])
       && AllDigits(iso[11..13]) && AllDigits(iso[14..16])
    then Some(DateTime(DigitsValue(iso[0..4]), DigitsValue(iso[5..7]), DigitsValue(iso[8..10]),
                       DigitsValue(iso[11..13]), DigitsValue(iso[14..16])))
    else None
  }

  lemma Pad2Value(n: nat)
    requires n < 100
    ensures DigitsValue(Pad2(n)) == n
  {
    var t := Pad2(n);
    var hi := t[..1];
    assert hi == [DigitChar(n / 10)];
    assert hi[..0] == [];
    assert DigitsValue(hi) == DigitValue(hi[0]);
    assert DigitsValue(t) == DigitsValue(hi) * 10 + DigitValue(t[1]);
  }

  lemma Pad4Value(n: nat)
    requires n < 10000
    ensures DigitsValue(Pad4(n)) == n
  {
    var t := Pad4(n);
    var hi, lo := n / 100, n % 100;
    assert t[..3][..2][..1][..0] == [];
    assert t[..2] == Pad2(hi);
    Pad2Value(hi);
    assert t[..3][..2] == t[..2];
    assert DigitsValue(t[..3]) == hi * 10 + DigitValue(t[2]);
    assert t[2] == DigitChar(lo / 10) && t[3] == DigitChar(lo % 10);
  }

  /** Reading an isoformat string back gives the same date and time. */
  lemma IsoRoundTrip(dt: DateTime)
    requires IsValid(dt)
    ensures FromIso(IsoFormat(dt)) == Some(dt)
  {
    var iso := IsoFormat(dt);
    assert iso[0..4] == Pad4(dt.year);
    assert iso[5..7] == Pad2(dt.month);
    assert iso[8..10] == Pad2(dt.day);
    assert iso[11..13] == Pad2(dt.hour);
    assert iso[14..16] == Pad2(dt.minute);
    Pad4Value(dt.year);
    Pad2Value(dt.month);
    Pad2Value(dt.day);
    Pad2Value(dt.hour);
    Pad2Value(dt.minute);
  }

  /** Distinct instants give distinct timeStamp literals. */
  lemma IsoInjective(a: DateTime, b: DateTime)
    requires IsValid(a) && IsValid(b) && IsoFormat(a) == IsoFormat(b)
    ensures a == b
  {
    IsoRoundTrip(a);
    IsoRoundTrip(b);
  }

  // --------------------------------------------- the two-digit input form

  /** The zero-padded spelling `DD/MM/YYYY HH:MM` of a date and time. */
  function DayFirst(dt: DateTime): string
    requires InFieldRanges(dt)
  {
    Pad2(dt.day) + "/" + Pad2(dt.month) + "/" + Pad4(dt.year) + " " + Pad2(dt.hour) + ":" + Pad2(dt.minute)
  }

  lemma Pad2Field(n: nat, lo: int, hi: int, spacePadded: bool)
    requires 0 <= lo <= 1 && 9 <= hi && lo <= n <= hi && n < 100
    ensures ParseField(Pad2(n), lo, hi, spacePadded) == Some(n)
  {
  }

  // One step of a match each: a separator, the blank, a two-digit field, the year.

  lemma MatchLiteral(ds: seq<Directive>, c: char, rest: string)
    requires ds != [] && ds[0] == Literal(c)
    ensures Match(ds, [c] + rest) == Match(ds[1..], rest)
  {
    assert ([c] + rest)[1..] == rest;
  }

  lemma MatchBlank(ds: seq<Directive>, rest: string)
    requires ds != [] && ds[0] == Blanks
    requires rest != [] && !IsPySpace(rest[0])
    ensures Match(ds, " " + rest) == Match(ds[1..], rest)
  {
    var s := " " + rest;
    assert s[1] == rest[0];
    assert LeadingSpaces(s) == 1;
    assert s[1..] == rest;
  }

  lemma MatchTwoDigits(ds: seq<Directive>, t: string, rest: string, v: int, vs: seq<int>)
    requires ds != [] && ds[0] in {Day, Month, Hour, Minute}
    requires |t| == 2 && FieldValue(ds[0], t) == Some(v) && Match(ds[1..], rest) == Some(vs)
    ensures Match(ds, t + rest) == Some([v] + vs)
  {
    var s := t + rest;
    assert s[..2] == t && s[2..] == rest;
  }

  lemma MatchYear(ds: seq<Directive>, t: string, rest: string, v: int, vs: seq<int>)
    requires ds != [] && ds[0] == Year
    requires |t| == 4 && FieldValue(Year, t) == Some(v) && Match(ds[1..], rest) == Some(vs)
    ensures Match(ds, t + rest) == Some([v] + vs)
  {
    var s := t + rest;
    assert s[..4] == t && s[4..] == rest;
  }

  lemma MatchEnd(ds: seq<Directive>, t: string, v: int)
    requires ds == [Minute] && |t| == 2 && FieldValue(Minute, t) == Some(v)
    ensures Match(ds, t) == Some([v])
  {
    assert t + [] == t && [v] + [] == [v];
    MatchTwoDigits(ds, t, [], v, []);
  }

  lemma DayFirstNested(dt: DateTime)
    requires InFieldRanges(dt)
    ensures DayFirst(dt)
            == Pad2(dt.day) + ("/" + (Pad2(dt.month) + ("/" + (Pad4(dt.year) + (" " + (Pad2(dt.hour) + (":" + Pad2(dt.minute))))))))
  {
  }

  /** The time part ` HH:MM`, from the blank on. */
  lemma MatchTime(h: nat, mi: nat)
    requires h < 24 && mi < 60
    ensures Match([Blanks, Hour, Literal(':'), Minute], " " + (Pad2(h) + (":" + Pad2(mi)))) == Some([h, mi])
  {
    var ds: seq<Directive> := [Blanks, Hour, Literal(':'), Minute];
    assert ds[1..] == [Hour, Literal(':'), Minute] && ds[1..][1..] == [Literal(':'), Minute];
    assert ds[1..][1..][1..] == [Minute];
    Pad2Field(h, 0, 23, false);
    Pad2Field(mi, 0, 59, false);
    MatchEnd(ds[1..][1..][1..], Pad2(mi), mi);
    MatchLiteral(ds[1..][1..], ':', Pad2(mi));
    MatchTwoDigits(ds[1..], Pad2(h), ":" + Pad2(mi), h, [mi]);
    MatchBlank(ds, Pad2(h) + (":" + Pad2(mi)));
    assert [h] + [mi] == [h, mi];
  }

  /** From the year on: `YYYY HH:MM`. */
  lemma MatchYearTime(ds: seq<Directive>, y: nat, h: nat, mi: nat)
    requires ds == [Year, Blanks, Hour, Literal(':'), Minute]
    requires y <= 9999 && h < 24 && mi < 60
    ensures Match(ds, Pad4(y) + (" " + (Pad2(h) + (":" + Pad2(mi))))) == Some([y, h, mi])
  {
    assert ds[1..] == [Blanks, Hour, Literal(':'), Minute];
    Pad4Value(y);
    MatchTime(h, mi);
    MatchYear(ds, Pad4(y), " " + (Pad2(h) + (":" + Pad2(mi))), y, [h, mi]);
    assert [y] + [h, mi] == [y, h, mi];
  }

  /** The whole zero-padded spelling matches, giving its five fields. */
  lemma MatchDayFirst(dt: DateTime)
    requires InFieldRanges(dt)
    ensures Match(FORMAT, DayFirst(dt)) == Some([dt.day, dt.month, dt.year, dt.hour, dt.minute])
  {
    var d, m := Pad2(dt.day), Pad2(dt.month);
    var tail := Pad4(dt.year) + (" " + (Pad2(dt.hour) + (":" + Pad2(dt.minute))));
    var d0 := FORMAT;
    var d1 := d0[1..];
    var d2 := d1[1..];
    var d3 := d2[1..];
    var d4 := d3[1..];
    MatchYearTime(d4, dt.year, dt.hour, dt.minute);
    MatchLiteral(d3, '/', tail);
    Pad2Field(dt.month, 1, 12, false);
    MatchTwoDigits(d2, m, "/" + tail, dt.month, [dt.year, dt.hour, dt.minute]);
    assert [dt.month] + [dt.year, dt.hour, dt.minute] == [dt.month, dt.year, dt.hour, dt.minute];
    MatchLiteral(d1, '/', m + ("/" + tail));
    Pad2Field(dt.day, 1, 31, true);
    MatchTwoDigits(d0, d, "/" + (m + ("/" + tail)), dt.day, [dt.month, dt.year, dt.hour, dt.minute]);
    assert [dt.day] + [dt.month, dt.year, dt.hour, dt.minute] == [dt.day, dt.month, dt.year, dt.hour, dt.minute];
    DayFirstNested(dt);
  }

  /** The zero-padded form parses to its own fields exactly when they make a
      real date, and otherwise raises the out-of-range ValueError. */
  lemma ParseDayFirst(dt: DateTime)
    requires InFieldRanges(dt)
    ensures ParseTimestamp(DayFirst(dt))
            == if IsValid(dt) then Success(dt) else Failure(DateOutOfRange(DayFirst(dt)))
  {
    MatchDayFirst(dt);
  }

  lemma ExampleInput()
    ensures DayFirst(DateTime(2024, 3, 1, 8, 30)) == "01/03/2024 08:30"
  {
  }

  lemma ExampleOutput()
    ensures IsoFormat(DateTime(2024, 3, 1, 8, 30)) == "2024-03-01T08:30:00"
  {
  }

  /** The worked example: `01/03/2024 08:30` is read as 1 March 2024, 08:30,
      and written back as `2024-03-01T08:30:00`. */
  lemma ExampleParses()
    ensures ParseTimestamp("01/03/2024 08:30") == Success(DateTime(2024, 3, 1, 8, 30))
    ensures IsoFormat(ParseTimestamp("01/03/2024 08:30").value) == "2024-03-01T08:30:00"
  {
    ExampleInput();
    ExampleOutput();
    ParseDayFirst(DateTime(2024, 3, 1, 8, 30));
  }

  /** The calendar check follows the Gregorian leap-year rule: 29 February
      parses exactly in leap years (2024 and 2000, not 2023 or 1900). */
  lemma LeapDayIff(y: int, h: int, mi: int)
    requires 1 <= y <= 9999 && 0 <= h < 24 && 0 <= mi < 60
    ensures ParseTimestamp(DayFirst(DateTime(y, 2, 29, h, mi))).Success? <==> IsLeapYear(y)
  {
    ParseDayFirst(DateTime(y, 2, 29, h, mi));
  }

  /** Text without the separators does not match the format at all. */
  lemma NotADate()
    ensures ParseTimestamp("not-a-date") == Failure(TimestampMismatch("not-a-date"))
  {
    var s := "not-a-date";
    assert s[..2] == "no" && s[..1] == "n";
    assert Match(FORMAT, s) == None;
  }
}
