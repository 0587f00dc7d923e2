/**
 * The start-time parser (`start_format`): turns the `-f` argument into a
 * naive local date-time. The clock reading `datetime.now()` is a parameter.
 */
module StartTime {
  import opened Base
  import opened Text

  /** A naive local date-time as Python's `datetime` holds it (microseconds are not modelled). */
  datatype DateTime = DateTime(year: nat, month: nat, day: nat, hour: nat, minute: nat, second: nat)

  predicate IsLeap(year: nat) {
    year % 4 == 0 && (year % 100 != 0 || year % 400 == 0)
  }

  function DaysIn(month: nat, year: nat): nat
    requires 1 <= month <= 12
  {
    if month == 2 then (if IsLeap(year) then 29 else 28)
    else if month == 4 || month == 6 || month == 9 || month == 11 then 30
    else 31
  }

  /** The values `datetime` accepts: years 1 to 9999, a real calendar day, a time of day. */
  predicate Valid(t: DateTime) {
    1 <= t.year <= 9999 && 1 <= t.month <= 12 && 1 <= t.day <= DaysIn(t.month, t.year) &&
    t.hour < 24 && t.minute < 60 && t.second < 60
  }

  /** The three textual forms besides "now" ('D' is one digit; see Text.Shaped). */
  const FullForm := "DD/DD/DDDD DD:DD"
  const DayMonthForm := "DD/DD DD:DD"
  const TimeForm := "DD:DD"

  /** The digits of `s[i..j]` as a number; `s` is known to be shaped so that they are digits. */
  function Field(s: string, i: nat, j: nat): nat
    requires i <= j <= |s| && forall k :: i <= k < j ==> IsDigit(s[k])
  {
    assert AllDigits(s[i..j]);
    NatOf(s[i..j])
  }

  /** Where the full form has its digits. */
  lemma FullFormDigits(s: string)
    requires Shaped(s, FullForm)
    ensures |s| == 16 && forall k :: 0 <= k < 16 && k != 2 && k != 5 && k != 10 && k != 13 ==> IsDigit(s[k])
  {
  }

  /** What strptime reads from "DD/MM/YYYY HH:MM". */
  function FullFields(s: string): (t: DateTime)
    requires Shaped(s, FullForm)
    ensures t.second == 0
  {
    FullFormDigits(s);
    DateTime(Field(s, 6, 10), Field(s, 3, 5), Field(s, 0, 2), Field(s, 11, 13), Field(s, 14, 16), 0)
  }

  /** What strptime reads from "DD/MM HH:MM": a date in 1900. */
  function DayMonthFields(s: string): (t: DateTime)
    requires Shaped(s, DayMonthForm)
    ensures t.year == 1900 && t.second == 0
  {
    DateTime(1900, Field(s, 3, 5), Field(s, 0, 2), Field(s, 6, 8), Field(s, 9, 11), 0)
  }

  /** What strptime reads from "HH:MM": a time on 1 January 1900. */
  function TimeFields(s: string): (t: DateTime)
    requires Shaped(s, TimeForm)
    ensures t.year == 1900 && t.month == 1 && t.day == 1 && t.second == 0
  {
    DateTime(1900, 1, 1, Field(s, 0, 2), Field(s, 3, 5), 0)
  }

  /**
   * `start_format`: "now" is the clock reading; "DD/MM/YYYY HH:MM" is read as
   * written; "DD/MM HH:MM" is read in the year 1900 (strptime's default) and
   * then moved to the current year; "HH:MM" is read on 1900-01-01 and then
   * moved to the current date. A value strptime rejects, and any other text,
   * is fatal. (A trailing newline passes the tool's `$` but strptime then
   * rejects the leftover character, so it is fatal as well.)
   */
  function ParseStart(s: string, now: DateTime): (r: Result<DateTime>)
    ensures r.Ok? ==> s == "now" || Shaped(s, FullForm) || Shaped(s, DayMonthForm) || Shaped(s, TimeForm)
    ensures r.Fail? ==> r.failure == MalformedStart
    ensures r.Ok? && s != "now" ==> r.value.second == 0
    ensures r.Ok? && Valid(now) ==> Valid(r.value)
    ensures s == "now" ==> r == Ok(now)
    ensures Shaped(s, FullForm) ==> (r.Ok? <==> Valid(FullFields(s)))
    ensures Shaped(s, DayMonthForm) ==> (r.Ok? <==> Valid(DayMonthFields(s)))
    ensures Shaped(s, TimeForm) ==> (r.Ok? <==> Valid(TimeFields(s)))
  {
    if s == "now" then Ok(now)
    else if Shaped(s, FullForm) then
      var t := FullFields(s);
      if Valid(t) then Ok(t) else Fail(MalformedStart)
    else if Shaped(s, DayMonthForm) then
      var t := DayMonthFields(s);
      if Valid(t) then
        assert Valid(now) ==> t.day <= DaysIn(t.month, now.year);
        Ok(t.(year := now.year))
      else Fail(MalformedStart)
    else if Shaped(s, TimeForm) then
      var t := TimeFields(s);
      if Valid(t) then Ok(t.(year := now.year, month := now.month, day := now.day)) else Fail(MalformedStart)
    else Fail(MalformedStart)
  }

  /** The full form yields exactly the fields written in the text. */
  lemma FullFormFields(s: string, now: DateTime)
    requires Shaped(s, FullForm) && ParseStart(s, now).Ok?
    ensures var t := ParseStart(s, now).value;
      Fixed(t.day, 2) == s[0..2] && Fixed(t.month, 2) == s[3..5] && Fixed(t.year, 4) == s[6..10] &&
      Fixed(t.hour, 2) == s[11..13] && Fixed(t.minute, 2) == s[14..16]
  {
    FullFieldsRead(s);
  }

  lemma FullFieldsRead(s: string)
    requires Shaped(s, FullForm)
    ensures var t := FullFields(s);
      Fixed(t.day, 2) == s[0..2] && Fixed(t.month, 2) == s[3..5] && Fixed(t.year, 4) == s[6..10] &&
      Fixed(t.hour, 2) == s[11..13] && Fixed(t.minute, 2) == s[14..16]
  {
    FullFormDigits(s);
    FieldRead(s, 0, 2);
    FieldRead(s, 3, 5);
    FieldRead(s, 6, 10);
    FieldRead(s, 11, 13);
    FieldRead(s, 14, 16);
  }

  /** The form without a year yields the written fields and takes the year from the clock. */
  lemma DayMonthFormFields(s: string, now: DateTime)
    requires Shaped(s, DayMonthForm) && ParseStart(s, now).Ok?
    ensures var t := ParseStart(s, now).value;
      t.year == now.year &&
      Fixed(t.day, 2) == s[0..2] && Fixed(t.month, 2) == s[3..5] &&
      Fixed(t.hour, 2) == s[6..8] && Fixed(t.minute, 2) == s[9..11]
  {
    assert s != "now" && !Shaped(s, FullForm);
    FieldRead(s, 0, 2);
    FieldRead(s, 3, 5);
    FieldRead(s, 6, 8);
    FieldRead(s, 9, 11);
  }

  /** The bare time of day takes year, month and day from the clock. */
  lemma TimeFormFields(s: string, now: DateTime)
    requires Shaped(s, TimeForm) && ParseStart(s, now).Ok?
    ensures var t := ParseStart(s, now).value;
      t.year == now.year && t.month == now.month && t.day == now.day &&
      Fixed(t.hour, 2) == s[0..2] && Fixed(t.minute, 2) == s[3..5]
  {
    assert s != "now" && !Shaped(s, FullForm) && !Shaped(s, DayMonthForm);
    FieldRead(s, 0, 2);
    FieldRead(s, 3, 5);
  }

  /** A digit field is written back unchanged at its own width. */
  lemma FieldRead(s: string, i: nat, j: nat)
    requires i <= j <= |s| && forall k :: i <= k < j ==> IsDigit(s[k])
    ensures Fixed(Field(s, i, j), j - i) == s[i..j]
  {
    assert AllDigits(s[i..j]);
    FixedNatOf(s[i..j]);
  }

  /** The full form written for a date-time: "DD/MM/YYYY HH:MM". */
  function FullText(t: DateTime): (s: string)
    ensures Shaped(s, FullForm)
  {
    Fixed(t.day, 2) + "/" + Fixed(t.month, 2) + "/" + Fixed(t.year, 4) + " " + Fixed(t.hour, 2) + ":" + Fixed(t.minute, 2)
  }

  /** Where the fields of a date-time sit in its full form. */
  lemma FullTextFields(t: DateTime)
    ensures var s := FullText(t);
      s != "now" &&
      s[0..2] == Fixed(t.day, 2) && s[3..5] == Fixed(t.month, 2) && s[6..10] == Fixed(t.year, 4) &&
      s[11..13] == Fixed(t.hour, 2) && s[14..16] == Fixed(t.minute, 2)
  {
    var s := FullText(t);
    assert |s| == 16;
  }

  /** Every valid date-time, written in the full form, parses back to itself (to the minute). */
  lemma ParseFullText(t: DateTime, now: DateTime)
    requires Valid(t)
    ensures ParseStart(FullText(t), now) == Ok(t.(second := 0))
  {
    FullTextFields(t);
    NatOfFixed(t.day, 2);
    NatOfFixed(t.month, 2);
    NatOfFixed(t.year, 4);
    NatOfFixed(t.hour, 2);
    NatOfFixed(t.minute, 2);
  }

  /** The form without a year written for a date-time: "DD/MM HH:MM". */
  function DayMonthText(t: DateTime): (s: string)
    ensures Shaped(s, DayMonthForm)
  {
    Fixed(t.day, 2) + "/" + Fixed(t.month, 2) + " " + Fixed(t.hour, 2) + ":" + Fixed(t.minute, 2)
  }

  /** The bare time of day written for a date-time: "HH:MM". */
  function TimeText(t: DateTime): (s: string)
    ensures Shaped(s, TimeForm)
  {
    Fixed(t.hour, 2) + ":" + Fixed(t.minute, 2)
  }

  /**
   * Every day, month and time that exist in 1900, written "DD/MM HH:MM", are
   * accepted and placed in the clock's year.
   */
  lemma ParseDayMonthText(t: DateTime, now: DateTime)
    requires Valid(t.(year := 1900))
    ensures ParseStart(DayMonthText(t), now) == Ok(DateTime(now.year, t.month, t.day, t.hour, t.minute, 0))
  {
    var s := DayMonthText(t);
    DayMonthTextFields(t);
    NatOfFixed(t.day, 2);
    NatOfFixed(t.month, 2);
    NatOfFixed(t.hour, 2);
    NatOfFixed(t.minute, 2);
    assert DayMonthFields(s) == t.(year := 1900, second := 0);
  }

  /** Where the fields sit in "DD/MM HH:MM", which is neither "now" nor the full form. */
  lemma DayMonthTextFields(t: DateTime)
    ensures var s := DayMonthText(t);
      s != "now" && !Shaped(s, FullForm) &&
      s[0..2] == Fixed(t.day, 2) && s[3..5] == Fixed(t.month, 2) &&
      s[6..8] == Fixed(t.hour, 2) && s[9..11] == Fixed(t.minute, 2)
  {
    var s := DayMonthText(t);
    assert |s| == 11;
  }

  /** Every time of day written "HH:MM" is accepted and placed on the clock's date. */
  lemma ParseTimeText(t: DateTime, now: DateTime)
    requires t.hour < 24 && t.minute < 60
    ensures ParseStart(TimeText(t), now) == Ok(now.(hour := t.hour, minute := t.minute, second := 0))
  {
    var s := TimeText(t);
    assert |s| == 5 && s != "now";
    assert s[0..2] == Fixed(t.hour, 2) && s[3..5] == Fixed(t.minute, 2);
    NatOfFixed(t.hour, 2);
    NatOfFixed(t.minute, 2);
  }

  /** Strptime reads "DD/MM" in 1900, which has no 29 February, so that date is refused in every year. */
  lemma LeapDayWithoutYearRefused(now: DateTime)
    ensures ParseStart("29/02 10:00", now) == Fail(MalformedStart)
  {
    var s := "29/02 10:00";
    assert |s| == 11 && Shaped(s, DayMonthForm);
    assert s[0..2] == "29" && s[3..5] == "02";
    assert NatOf("29") == 29 && NatOf("02") == 2;
    assert DayMonthFields(s).day == 29 && DayMonthFields(s).month == 2;
  }

  /** A one-digit day does not match any form. */
  lemma ShortFieldRefused(now: DateTime)
    ensures ParseStart("1/06/2022 12:10", now) == Fail(MalformedStart)
  {
    var s := "1/06/2022 12:10";
    assert |s| == 15;
  }
}
