/**
  `sqlString` of the import script: an empty value becomes the SQL keyword
  `NULL`; anything else becomes a single-quoted SQL literal in which every
  quote of the value is doubled.
 */
module SqlQuoting {

  const Quote: char := '\''

  /** `value.replace(/'/g, "''")`. */
  function EscapeQuotes(v: string): (r: string)
    ensures |r| >= |v|
  {
    if v == [] then []
    else (if v[0] == Quote then [Quote, Quote] else [v[0]]) + EscapeQuotes(v[1..])
  }

  /** Reads a literal's interior back: every doubled quote becomes one quote. */
  function UnescapeQuotes(t: string): string
  {
    if t == [] then []
    else if |t| >= 2 && t[0] == Quote && t[1] == Quote then [Quote] + UnescapeQuotes(t[2..])
    else [t[0]] + UnescapeQuotes(t[1..])
  }

  /** Every quote of `t` belongs to a pair of adjacent quotes: no odd run of quotes. */
  predicate WellQuoted(t: string)
  {
    if t == [] then true
    else if t[0] != Quote then WellQuoted(t[1..])
    else |t| >= 2 && t[1] == Quote && WellQuoted(t[2..])
  }

  /** Doubling the quotes leaves no lone quote, and reading the pairs back recovers the value. */
  lemma {:induction false} EscapeRoundTrip(v: string)
    ensures WellQuoted(EscapeQuotes(v))
    ensures UnescapeQuotes(EscapeQuotes(v)) == v
  {
    if v != [] {
      EscapeRoundTrip(v[1..]);
      var e := EscapeQuotes(v);
      var rest := EscapeQuotes(v[1..]);
      if v[0] == Quote {
        assert e[2..] == rest;
      } else {
        assert e[1..] == rest;
      }
    }
  }

  /** Conversely, a well-quoted interior is the escaped form of what it reads back to. */
  lemma {:induction false} UnescapeRoundTrip(t: string)
    requires WellQuoted(t)
    ensures EscapeQuotes(UnescapeQuotes(t)) == t
  {
    if t != [] {
      if t[0] == Quote {
        UnescapeRoundTrip(t[2..]);
        assert t == [Quote, Quote] + t[2..];
      } else {
        UnescapeRoundTrip(t[1..]);
        assert t == [t[0]] + t[1..];
      }
    }
  }

  /** `sqlString(value)`. */
  function SqlString(v: string): (r: string)
    ensures v == [] <==> r == "NULL"
    ensures v != [] ==> && |r| >= 2 && r[0] == Quote && r[|r| - 1] == Quote
                        && WellQuoted(r[1..|r| - 1])
                        && UnescapeQuotes(r[1..|r| - 1]) == v
  {
    if v == [] then "NULL"
    else
      var r := [Quote] + EscapeQuotes(v) + [Quote];
      assert r[1..|r| - 1] == EscapeQuotes(v);
      EscapeRoundTrip(v);
      r
  }

  /** Distinct values never produce the same SQL text. */
  lemma SqlStringInjective(a: string, b: string)
    requires SqlString(a) == SqlString(b)
    ensures a == b
  {
  }
}
