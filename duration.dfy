/**
 * The duration parser (`duration_format`): turns the `-d` argument into the
 * three text fields (days, hours, minutes) that the create request carries.
 */
module Duration {
  import opened Base
  import opened Text

  /** The three duration fields as sent to the server: days unpadded, hours and minutes padded to two. */
  datatype DurationText = DurationText(days: string, hours: string, minutes: string)

  /** Python's `$` also matches just before one final newline: the text the patterns must cover. */
  function Anchored(s: string): (b: string)
    ensures s == b || s == b + "\n"
  {
    if |s| > 0 && s[|s| - 1] == '\n' then s[..|s| - 1] else s
  }

  /** A non-empty run of digits followed by the letter `unit`: the digits and what follows. */
  function Lead(b: string, unit: char): (r: Option<(string, string)>)
    requires !IsDigit(unit)
    ensures r.Some? ==> |r.value.0| > 0 && AllDigits(r.value.0) && b == r.value.0 + [unit] + r.value.1
  {
    var i := Span(b);
    if 0 < i < |b| && b[i] == unit then
      assert b == b[..i] + [unit] + b[i + 1..];
      Some((b[..i], b[i + 1..]))
    else None
  }

  predicate Digits(s: string) { |s| > 0 && AllDigits(s) }

  /** `\d+m$` */
  function MatchM(b: string): (r: Option<string>)
    ensures r.Some? ==> Digits(r.value) && b == r.value + "m"
  {
    match Lead(b, 'm')
    case Some((m, rest)) => if rest == [] then Some(m) else None
    case None => None
  }

  /** `\d+h$` */
  function MatchH(b: string): (r: Option<string>)
    ensures r.Some? ==> Digits(r.value) && b == r.value + "h"
  {
    match Lead(b, 'h')
    case Some((h, rest)) => if rest == [] then Some(h) else None
    case None => None
  }

  /** `(\d+)h(\d+)m$` */
  function MatchHM(b: string): (r: Option<(string, string)>)
    ensures r.Some? ==> Digits(r.value.0) && Digits(r.value.1) && b == r.value.0 + "h" + r.value.1 + "m"
  {
    match Lead(b, 'h')
    case Some((h, rest)) =>
      (match MatchM(rest)
       case Some(m) => Some((h, m))
       case None => None)
    case None => None
  }

  /** `(\d+)d(\d+)h(\d+)m$` */
  function MatchDHM(b: string): (r: Option<(string, string, string)>)
    ensures r.Some? ==> Digits(r.value.0) && Digits(r.value.1) && Digits(r.value.2)
    ensures r.Some? ==> b == r.value.0 + "d" + r.value.1 + "h" + r.value.2 + "m"
  {
    match Lead(b, 'd')
    case Some((d, rest)) =>
      (match MatchHM(rest)
       case Some((h, m)) => Some((d, h, m))
       case None => None)
    case None => None
  }

  /**
   * `duration_format`: the four forms are tried in the order the tool tries
   * them; hours and minutes are left-padded to two characters, days are not,
   * and no value is range-checked. Anything else is fatal.
   */
  function ParseDuration(s: string): (r: Result<DurationText>)
    ensures r.Fail? ==> r.failure == MalformedDuration
    ensures r.Ok? ==> Digits(r.value.days) && AllDigits(r.value.hours) && AllDigits(r.value.minutes)
    ensures r.Ok? ==> |r.value.hours| >= 2 && |r.value.minutes| >= 2
  {
    var b := Anchored(s);
    if MatchDHM(b).Some? then
      var (d, h, m) := MatchDHM(b).value;
      Ok(DurationText(d, PadLeft(h, 2), PadLeft(m, 2)))
    else if MatchHM(b).Some? then
      var (h, m) := MatchHM(b).value;
      Ok(DurationText("0", PadLeft(h, 2), PadLeft(m, 2)))
    else if MatchH(b).Some? then
      var h := MatchH(b).value;
      Ok(DurationText("0", PadLeft(h, 2), "00"))
    else if MatchM(b).Some? then
      var m := MatchM(b).value;
      Ok(DurationText("0", "00", PadLeft(m, 2)))
    else Fail(MalformedDuration)
  }

  /** The four accepted forms, each component a non-empty digit string. */
  datatype Form = DHM(d: string, h: string, m: string) | HM(h: string, m: string) | H(h: string) | M(m: string)

  predicate WellFormed(f: Form) {
    match f
    case DHM(d, h, m) => Digits(d) && Digits(h) && Digits(m)
    case HM(h, m) => Digits(h) && Digits(m)
    case H(h) => Digits(h)
    case M(m) => Digits(m)
  }

  /** How a form is written on the command line. */
  function Written(f: Form): string {
    match f
    case DHM(d, h, m) => d + "d" + h + "h" + m + "m"
    case HM(h, m) => h + "h" + m + "m"
    case H(h) => h + "h"
    case M(m) => m + "m"
  }

  /** The fields the tool derives from a form. */
  function Fields(f: Form): DurationText {
    match f
    case DHM(d, h, m) => DurationText(d, PadLeft(h, 2), PadLeft(m, 2))
    case HM(h, m) => DurationText("0", PadLeft(h, 2), PadLeft(m, 2))
    case H(h) => DurationText("0", PadLeft(h, 2), "00")
    case M(m) => DurationText("0", "00", PadLeft(m, 2))
  }

  lemma LeadOf(d: string, unit: char, rest: string)
    requires Digits(d) && !IsDigit(unit)
    ensures Lead(d + [unit] + rest, unit) == Some((d, rest))
  {
    var b := d + [unit] + rest;
    assert b == d + ([unit] + rest);
    SpanOf(d, [unit] + rest);
    assert b[..|d|] == d && b[|d| + 1..] == rest;
  }

  lemma LeadOther(d: string, unit: char, other: char, rest: string)
    requires Digits(d) && !IsDigit(unit) && !IsDigit(other) && unit != other
    ensures Lead(d + [other] + rest, unit) == None
  {
    var b := d + [other] + rest;
    assert b == d + ([other] + rest);
    SpanOf(d, [other] + rest);
  }

  /** The text the patterns see is the written form, whether or not a newline follows it. */
  lemma AnchoredWritten(w: string, newline: bool)
    requires |w| > 0 && w[|w| - 1] != '\n'
    ensures Anchored(w + (if newline then "\n" else "")) == w
  {
    var s := w + (if newline then "\n" else "");
    if newline { assert s[..|s| - 1] == w; } else { assert s == w; }
  }

  /** Every well-formed duration, with or without a final newline, parses to its fields. */
  lemma ParseWritten(f: Form, newline: bool)
    requires WellFormed(f)
    ensures ParseDuration(Written(f) + (if newline then "\n" else "")) == Ok(Fields(f))
  {
    var w := Written(f);
    assert w[|w| - 1] == 'm' || w[|w| - 1] == 'h';
    AnchoredWritten(w, newline);
    match f
    case DHM(d, h, m) => ParsesDHM(d, h, m);
    case HM(h, m) => ParsesHM(h, m);
    case H(h) => ParsesH(h);
    case M(m) => ParsesM(m);
  }

  lemma ParsesDHM(d: string, h: string, m: string)
    requires Digits(d) && Digits(h) && Digits(m)
    ensures MatchDHM(d + "d" + h + "h" + m + "m") == Some((d, h, m))
  {
    assert d + "d" + h + "h" + m + "m" == d + ['d'] + (h + "h" + m + "m");
    LeadOf(d, 'd', h + "h" + m + "m");
    ParsesHM(h, m);
  }

  lemma ParsesHM(h: string, m: string)
    requires Digits(h) && Digits(m)
    ensures MatchHM(h + "h" + m + "m") == Some((h, m))
    ensures MatchDHM(h + "h" + m + "m") == None
  {
    assert h + "h" + m + "m" == h + ['h'] + (m + "m");
    LeadOf(h, 'h', m + "m");
    LeadOther(h, 'd', 'h', m + "m");
    ParsesM(m);
  }

  lemma ParsesH(h: string)
    requires Digits(h)
    ensures MatchH(h + "h") == Some(h)
    ensures MatchDHM(h + "h") == None && MatchHM(h + "h") == None
  {
    assert h + "h" == h + ['h'] + [];
    LeadOf(h, 'h', []);
    LeadOther(h, 'd', 'h', []);
  }

  lemma ParsesM(m: string)
    requires Digits(m)
    ensures MatchM(m + "m") == Some(m)
    ensures MatchDHM(m + "m") == None && MatchHM(m + "m") == None && MatchH(m + "m") == None
  {
    assert m + "m" == m + ['m'] + [];
    LeadOf(m, 'm', []);
    LeadOther(m, 'd', 'm', []);
    LeadOther(m, 'h', 'm', []);
  }

  /** Only the four forms parse: whatever is accepted is one of them, possibly followed by a newline. */
  lemma OnlyFormsParse(s: string)
    requires ParseDuration(s).Ok?
    ensures exists f :: WellFormed(f) && (s == Written(f) || s == Written(f) + "\n") && ParseDuration(s) == Ok(Fields(f))
  {
    var b := Anchored(s);
    var f: Form;
    if MatchDHM(b).Some? {
      var (d, h, m) := MatchDHM(b).value;
      f := DHM(d, h, m);
    } else if MatchHM(b).Some? {
      var (h, m) := MatchHM(b).value;
      f := HM(h, m);
    } else if MatchH(b).Some? {
      f := H(MatchH(b).value);
    } else {
      f := M(MatchM(b).value);
    }
    assert WellFormed(f) && b == Written(f);
    assert ParseDuration(s) == Ok(Fields(f));
    assert s == Written(f) || s == Written(f) + "\n";
  }

  /** Hours are not range-checked: thirty hours stays thirty hours and is not carried into days. */
  lemma ThirtyHours()
    ensures ParseDuration("30h") == Ok(DurationText("0", "30", "00"))
  {
    ParseWritten(H("30"), false);
    assert Written(H("30")) + "" == "30h";
  }

  /** Days, hours and minutes: "1d2h3m" gives ("1", "02", "03"). */
  lemma DaysHoursMinutesExample()
    ensures ParseDuration("1d2h3m") == Ok(DurationText("1", "02", "03"))
  {
    ParsesDHM("1", "2", "3");
    assert "1" + "d" + "2" + "h" + "3" + "m" == "1d2h3m";
    assert Anchored("1d2h3m") == "1d2h3m";
    assert PadLeft("2", 2) == "02" && PadLeft("3", 2) == "03";
  }

  /** Hours and minutes: "2h30m" gives ("0", "02", "30"). */
  lemma HoursMinutesExample()
    ensures ParseDuration("2h30m") == Ok(DurationText("0", "02", "30"))
  {
    ParsesHM("2", "30");
    assert "2" + "h" + "30" + "m" == "2h30m";
    assert Anchored("2h30m") == "2h30m";
    assert PadLeft("2", 2) == "02" && PadLeft("30", 2) == "30";
  }

  /** Hours only: "3h" gives ("0", "03", "00"). */
  lemma HoursExample()
    ensures ParseDuration("3h") == Ok(DurationText("0", "03", "00"))
  {
    ParsesH("3");
    assert "3" + "h" == "3h";
    assert Anchored("3h") == "3h";
    assert PadLeft("3", 2) == "03";
  }

  /** Minutes only: "45m" gives ("0", "00", "45"). */
  lemma MinutesExample()
    ensures ParseDuration("45m") == Ok(DurationText("0", "00", "45"))
  {
    assert PadLeft("45", 2) == "45";
    ParseWritten(M("45"), false);
    assert Written(M("45")) + "" == "45m";
  }

  /** Text that does not begin with a digit is fatal. */
  lemma NoDigitsRefused()
    ensures ParseDuration("abc") == Fail(MalformedDuration)
  {
    assert Span("abc") == 0;
  }

  /** Minutes without their unit are fatal: "2h30" is in none of the forms. */
  lemma NoUnitRefused()
    ensures ParseDuration("2h30") == Fail(MalformedDuration)
  {
    var s := "2h30";
    assert s == "2" + ['h'] + "30";
    LeadOf("2", 'h', "30");
    SpanOf("30", []);
    assert "30" + [] == "30";
    assert Lead("30", 'm') == None;
    SpanOf("2", "h30");
    assert "2" + "h30" == s;
    assert Lead(s, 'd') == None && Lead(s, 'm') == None;
  }
}
