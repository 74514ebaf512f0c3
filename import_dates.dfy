/**
  `parseDate` and `sqlDate` of the import script. Text dates are matched against
  `^(\d{1,2})\/(\d{1,2})\/(\d{4})$` (day, month, year) and then
  `^(\d{4})-(\d{1,2})-(\d{1,2})$` (year, month, day) and rewritten as a
  zero-padded `YYYY-MM-DD`; a number is an Excel serial date.
 */
module ImportDates {
  import opened Wrappers
  import opened JsStrings
  import opened ImportCells

  /**
    A regular expression of the shape `^(\d{min1,max1})S(\d{min2,max2})S(\d{min3,max3})$`
    for a separator `S` that is not a digit.
   */
  datatype DatePattern = DatePattern(sep: char, min1: nat, max1: nat, min2: nat, max2: nat, min3: nat, max3: nat)

  /** `^(\d{1,2})\/(\d{1,2})\/(\d{4})$`. */
  const DayMonthYear := DatePattern('/', 1, 2, 1, 2, 4, 4)
  /** `^(\d{4})-(\d{1,2})-(\d{1,2})$`. */
  const YearMonthDay := DatePattern('-', 4, 4, 1, 2, 1, 2)

  /** The three captured groups of a match. */
  datatype Groups = Groups(g1: string, g2: string, g3: string)

  /** Each group is a digit run whose length the pattern allows. */
  predicate Fits(p: DatePattern, g: Groups) {
    && AllDigits(g.g1) && p.min1 <= |g.g1| <= p.max1
    && AllDigits(g.g2) && p.min2 <= |g.g2| <= p.max2
    && AllDigits(g.g3) && p.min3 <= |g.g3| <= p.max3
  }

  /** The text the groups and separators spell. */
  function Joined(p: DatePattern, g: Groups): string {
    g.g1 + [p.sep] + g.g2 + [p.sep] + g.g3
  }

  /** `t.match(p)`: the captured groups, or None when `t` does not match. */
  function MatchDate(p: DatePattern, t: string): (r: Option<Groups>)
    ensures r.Some? ==> Fits(p, r.value) && t == Joined(p, r.value)
  {
    var n1 := DigitRun(t);
    if !(p.min1 <= n1 <= p.max1) || n1 == |t| || t[n1] != p.sep then None
    else
      var t2 := t[n1 + 1..];
      var n2 := DigitRun(t2);
      if !(p.min2 <= n2 <= p.max2) || n2 == |t2| || t2[n2] != p.sep then None
      else
        var t3 := t2[n2 + 1..];
        if AllDigits(t3) && p.min3 <= |t3| <= p.max3 then
          SplitAt(t2, n2);
          SplitAt(t, n1);
          Some(Groups(t[..n1], t2[..n2], t3))
        else None
  }

  /** A text is what comes before position `n`, the character there, and what follows. */
  lemma SplitAt(t: string, n: nat)
    requires n < |t|
    ensures t == t[..n] + [t[n]] + t[n + 1..]
  {
  }

  /** Every text of the pattern's shape matches, with exactly its own groups. */
  lemma MatchDateComplete(p: DatePattern, g: Groups)
    requires Fits(p, g) && !IsDigit(p.sep)
    ensures MatchDate(p, Joined(p, g)) == Some(g)
  {
    var t := Joined(p, g);
    assert t[..|g.g1|] == g.g1;
    DigitRunExact(t, |g.g1|);
    var t2 := t[|g.g1| + 1..];
    assert t2 == g.g2 + [p.sep] + g.g3;
    assert t2[..|g.g2|] == g.g2;
    DigitRunExact(t2, |g.g2|);
    assert t2[|g.g2| + 1..] == g.g3;
  }

  /** A text matches the pattern exactly when it has the pattern's shape. */
  lemma MatchDateIff(p: DatePattern, t: string)
    requires !IsDigit(p.sep)
    ensures MatchDate(p, t).Some? <==> exists g :: Fits(p, g) && Joined(p, g) == t
  {
    if exists g :: Fits(p, g) && Joined(p, g) == t {
      var g :| Fits(p, g) && Joined(p, g) == t;
      MatchDateComplete(p, g);
    }
  }

  /** The zero-padded `YYYY-MM-DD` text for a year, month and day. */
  function IsoText(year: string, month: string, day: string): string {
    year + "-" + PadStart2(month) + "-" + PadStart2(day)
  }

  /** The string branches of `parseDate`, on text that is already trimmed. */
  function ParseDateText(cleaned: string): Option<string> {
    match MatchDate(DayMonthYear, cleaned)
    case Some(g) => Some(IsoText(g.g3, g.g2, g.g1))
    case None =>
      match MatchDate(YearMonthDay, cleaned)
      case Some(g) => Some(IsoText(g.g1, g.g2, g.g3))
      case None => None
  }

  /** `parseDate(value)`: falsy values and booleans give null, numbers are serial dates. */
  function ParseDate(c: Cell, env: Builtins): (r: Option<string>)
    ensures !Truthy(c) || c.Bool? ==> r == None
    ensures c.Text? && c.s != "" ==> r == ParseDateText(Trim(c.s))
  {
    if !Truthy(c) then None
    else match c
      case Number(n) => Some(env.serialDateToIso(n))
      case Text(s) => ParseDateText(Trim(s))
      case Bool(_) => None
  }

  /** `d` is a date of the form `YYYY-MM-DD` in digits. */
  predicate IsIsoDate(d: string) {
    && |d| == 10 && d[4] == '-' && d[7] == '-'
    && AllDigits(d[..4]) && AllDigits(d[5..7]) && AllDigits(d[8..])
  }

  /** Padding a one- or two-digit run gives two digits that end with the run. */
  lemma PadStart2Digits(s: string)
    requires AllDigits(s) && 1 <= |s| <= 2
    ensures AllDigits(PadStart2(s)) && |PadStart2(s)| == 2
  {
  }

  /** Four digits, a hyphen, two digits, a hyphen and two digits make an ISO date. */
  lemma IsoShape(year: string, month: string, day: string)
    requires AllDigits(year) && |year| == 4
    requires AllDigits(month) && |month| == 2 && AllDigits(day) && |day| == 2
    ensures IsIsoDate(year + "-" + month + "-" + day)
  {
    var d := year + "-" + month + "-" + day;
    assert d[..4] == year;
    assert d[5..7] == month;
    assert d[8..] == day;
  }

  /** The zero-padded text of a four-digit year and a one- or two-digit month and day is an ISO date. */
  lemma IsoTextIsIso(year: string, month: string, day: string)
    requires AllDigits(year) && |year| == 4
    requires AllDigits(month) && 1 <= |month| <= 2 && AllDigits(day) && 1 <= |day| <= 2
    ensures IsIsoDate(IsoText(year, month, day))
  {
    PadStart2Digits(month);
    PadStart2Digits(day);
    IsoShape(year, PadStart2(month), PadStart2(day));
  }

  /** `D/M/YYYY` becomes `YYYY-MM-DD`, the day and month padded to two digits. */
  lemma ParseDateDayMonthYear(day: string, month: string, year: string, env: Builtins)
    requires AllDigits(day) && 1 <= |day| <= 2
    requires AllDigits(month) && 1 <= |month| <= 2
    requires AllDigits(year) && |year| == 4
    ensures ParseDate(Text(day + "/" + month + "/" + year), env)
            == Some(year + "-" + PadStart2(month) + "-" + PadStart2(day))
    ensures IsIsoDate(year + "-" + PadStart2(month) + "-" + PadStart2(day))
  {
    var g := Groups(day, month, year);
    var t := day + "/" + month + "/" + year;
    assert Joined(DayMonthYear, g) == t;
    MatchDateComplete(DayMonthYear, g);
    TrimKeeps(t);
    IsoTextIsIso(year, month, day);
  }

  /** `YYYY-M-D` becomes `YYYY-MM-DD`, the month and day padded to two digits. */
  lemma ParseDateYearMonthDay(year: string, month: string, day: string, env: Builtins)
    requires AllDigits(year) && |year| == 4
    requires AllDigits(month) && 1 <= |month| <= 2
    requires AllDigits(day) && 1 <= |day| <= 2
    ensures ParseDate(Text(year + "-" + month + "-" + day), env)
            == Some(year + "-" + PadStart2(month) + "-" + PadStart2(day))
    ensures IsIsoDate(year + "-" + PadStart2(month) + "-" + PadStart2(day))
  {
    var g := Groups(year, month, day);
    var t := year + "-" + month + "-" + day;
    assert Joined(YearMonthDay, g) == t;
    MatchDateComplete(YearMonthDay, g);
    // The leading run of four digits is too long for a day.
    assert t[..4] == year;
    DigitRunExact(t, 4);
    TrimKeeps(t);
    IsoTextIsIso(year, month, day);
  }

  /** An ISO date is its own parse. */
  lemma ParseDateTextIso(d: string)
    requires IsIsoDate(d)
    ensures ParseDateText(d) == Some(d)
  {
    var g := Groups(d[..4], d[5..7], d[8..]);
    assert Joined(YearMonthDay, g) == d;
    MatchDateComplete(YearMonthDay, g);
    assert d[..4] == g.g1;
    DigitRunExact(d, 4);
    assert MatchDate(DayMonthYear, d) == None;
    assert IsoText(g.g1, g.g2, g.g3) == d;
  }

  /** What the text branches produce is always an ISO date. */
  lemma ParseDateTextIsIso(cleaned: string)
    requires ParseDateText(cleaned).Some?
    ensures IsIsoDate(ParseDateText(cleaned).value)
  {
    match MatchDate(DayMonthYear, cleaned)
    case Some(g) => IsoTextIsIso(g.g3, g.g2, g.g1);
    case None =>
      var g := MatchDate(YearMonthDay, cleaned).value;
      IsoTextIsIso(g.g1, g.g2, g.g3);
  }

  /** Parsing the text a text date was parsed into gives it back unchanged. */
  lemma ParseDateIdempotent(s: string, env: Builtins)
    requires ParseDate(Text(s), env).Some?
    ensures ParseDate(Text(ParseDate(Text(s), env).value), env) == ParseDate(Text(s), env)
  {
    var d := ParseDate(Text(s), env).value;
    ParseDateTextIsIso(Trim(s));
    IsoNotBlank(d);
    ParseDateTextIso(d);
  }

  /** An ISO date is made of digits and hyphens: nothing to trim and truthy. */
  lemma IsoNotBlank(d: string)
    requires IsIsoDate(d)
    ensures d != [] && Trim(d) == d
  {
    assert d[0] == d[..4][0] && d[9] == d[8..][1];
    TrimKeeps(d);
  }

  /** Text gives null exactly when, trimmed, it has neither accepted shape. */
  lemma ParseDateNone(s: string, env: Builtins)
    ensures ParseDate(Text(s), env) == None
            <==> !(exists g :: Fits(DayMonthYear, g) && Joined(DayMonthYear, g) == Trim(s))
                 && !(exists g :: Fits(YearMonthDay, g) && Joined(YearMonthDay, g) == Trim(s))
  {
    MatchDateIff(DayMonthYear, Trim(s));
    MatchDateIff(YearMonthDay, Trim(s));
    if s != "" && Trim(s) == "" {
      assert MatchDate(DayMonthYear, Trim(s)) == None;
      assert MatchDate(YearMonthDay, Trim(s)) == None;
    }
  }

  /** `sqlDate(value)` for the date text (or null) a row was parsed into. */
  function SqlDate(value: Option<string>): (r: string)
    ensures r == "NULL" || (|r| >= 2 && r[0] == '\'' && r[|r| - 1] == '\'')
  {
    if value.None? || value.value == "" then "NULL"
    else match ParseDateText(Trim(value.value))
      case None => "NULL"
      case Some(d) => "'" + d + "'"
  }

  /** An ISO date is written as itself, quoted, as a SQL date literal. */
  lemma SqlDateIso(d: string)
    requires IsIsoDate(d)
    ensures SqlDate(Some(d)) == "'" + d + "'"
  {
    IsoNotBlank(d);
    ParseDateTextIso(d);
    var t := Trim(d);
    assert t == d;
    assert ParseDateText(t) == Some(d);
  }

  /** A parsed text date is written as a quoted SQL date literal, never as NULL. */
  lemma SqlDateOfParsed(c: Cell, env: Builtins)
    requires c.Text? && ParseDate(c, env).Some?
    ensures SqlDate(ParseDate(c, env)) == "'" + ParseDate(c, env).value + "'"
  {
    assert ParseDate(c, env) == ParseDateText(Trim(c.s));
    ParseDateTextIsIso(Trim(c.s));
    SqlDateIso(ParseDate(c, env).value);
  }
}
