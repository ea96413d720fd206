/** The two formatters of interactions/commands/stats.py: the uptime string
    built from `timedelta.days` and `timedelta.seconds` with `divmod`, and the
    unit chosen for a byte count. */
module StatsFormat {
  import opened Text

  /** `divmod(seconds, 3600)` then `divmod(remainder, 60)`. */
  function TimeParts(seconds: nat): (parts: (nat, nat, nat))
    ensures 3600 * parts.0 + 60 * parts.1 + parts.2 == seconds
    ensures parts.1 < 60 && parts.2 < 60
    ensures seconds < 86400 ==> parts.0 < 24
  {
    var hours := seconds / 3600;
    var remainder := seconds % 3600;
    (hours, remainder / 60, remainder % 60)
  }

  /** The division is exact: only these three numbers give these seconds. */
  lemma TimePartsUnique(seconds: nat, h: nat, m: nat, s: nat)
    requires 3600 * h + 60 * m + s == seconds && m < 60 && s < 60
    ensures TimeParts(seconds) == (h, m, s)
  {
    assert 0 <= 60 * m + s < 3600;
    assert seconds / 3600 == h;
    assert seconds % 3600 == 60 * m + s;
  }

  const Day := "\U{65E5}"
  const Hour := "\U{6642}\U{9593}"
  const Minute := "\U{5206}"
  const Second := "\U{79D2}"

  /** `_format_timedelta(td)` for `td.days == days`, `td.seconds == seconds`. */
  function FormatTimedelta(days: int, seconds: nat): string
    requires seconds < 86400
  {
    var (hours, minutes, secs) := TimeParts(seconds);
    if days > 0 then
      IntToString(days) + Day + " " + NatToString(hours) + Hour + " " + NatToString(minutes) + Minute
    else if hours > 0 then
      NatToString(hours) + Hour + " " + NatToString(minutes) + Minute + " " + NatToString(secs) + Second
    else
      NatToString(minutes) + Minute + " " + NatToString(secs) + Second
  }

  predicate HasChar(s: string, c: char) {
    exists i :: 0 <= i < |s| && s[i] == c
  }

  lemma HasCharConcat(a: string, b: string, c: char)
    ensures HasChar(a + b, c) <==> HasChar(a, c) || HasChar(b, c)
  {
    if HasChar(a + b, c) {
      var i :| 0 <= i < |a + b| && (a + b)[i] == c;
      if i >= |a| { assert b[i - |a|] == c; }
    }
    if HasChar(b, c) {
      var i :| 0 <= i < |b| && b[i] == c;
      assert (a + b)[|a| + i] == c;
    }
    if HasChar(a, c) {
      var i :| 0 <= i < |a| && a[i] == c;
      assert (a + b)[i] == c;
    }
  }

  lemma NumberHasNoUnit(n: nat, d: int, c: char)
    requires !IsDigit(c) && c != '-'
    ensures !HasChar(NatToString(n), c)
    ensures d > 0 ==> !HasChar(IntToString(d), c)
  {
    NatToStringDigits(n);
    if d > 0 { NatToStringDigits(d); }
  }

  /** Which units appear: days only with a positive day count, and then
      never seconds; seconds exactly when there are no days; the hour unit
      whenever there are days or a positive hour count. */
  lemma FormatTimedeltaUnits(days: int, seconds: nat)
    requires seconds < 86400
    ensures var r := FormatTimedelta(days, seconds);
      && (HasChar(r, '\U{65E5}') <==> days > 0)
      && (HasChar(r, '\U{79D2}') <==> days <= 0)
      && (HasChar(r, '\U{6642}') <==> days > 0 || seconds >= 3600)
      && HasChar(r, '\U{5206}')
  {
    var (h, m, s) := TimeParts(seconds);
    var units := ['\U{65E5}', '\U{79D2}', '\U{6642}', '\U{5206}'];
    forall c | c in units
      ensures !HasChar(NatToString(h), c) && !HasChar(NatToString(m), c) && !HasChar(NatToString(s), c)
      ensures days > 0 ==> !HasChar(IntToString(days), c)
    {
      NumberHasNoUnit(h, days, c);
      NumberHasNoUnit(m, days, c);
      NumberHasNoUnit(s, days, c);
    }
    forall c | c in units
      ensures HasChar(Day, c) <==> c == '\U{65E5}'
      ensures HasChar(Hour, c) <==> c == '\U{6642}'
      ensures HasChar(Minute, c) <==> c == '\U{5206}'
      ensures HasChar(Second, c) <==> c == '\U{79D2}'
      ensures !HasChar(" ", c)
    {
      assert Day[0] == '\U{65E5}' && Minute[0] == '\U{5206}' && Second[0] == '\U{79D2}';
      assert Hour[0] == '\U{6642}' && Hour[1] == '\U{9593}';
    }
    forall c | c in units
      ensures var r := FormatTimedelta(days, seconds);
        if days > 0 then
          HasChar(r, c) <==> (HasChar(IntToString(days), c) || HasChar(Day, c) || HasChar(" ", c)
            || HasChar(NatToString(h), c) || HasChar(Hour, c) || HasChar(" ", c)
            || HasChar(NatToString(m), c) || HasChar(Minute, c))
        else if h > 0 then
          HasChar(r, c) <==> (HasChar(NatToString(h), c) || HasChar(Hour, c) || HasChar(" ", c)
            || HasChar(NatToString(m), c) || HasChar(Minute, c) || HasChar(" ", c)
            || HasChar(NatToString(s), c) || HasChar(Second, c))
        else
          HasChar(r, c) <==> (HasChar(NatToString(m), c) || HasChar(Minute, c) || HasChar(" ", c)
            || HasChar(NatToString(s), c) || HasChar(Second, c))
    {
      if days > 0 {
        var p := [IntToString(days), Day, " ", NatToString(h), Hour, " ", NatToString(m), Minute];
        HasCharConcat(p[0], p[1], c);
        HasCharConcat(p[0] + p[1], p[2], c);
        HasCharConcat(p[0] + p[1] + p[2], p[3], c);
        HasCharConcat(p[0] + p[1] + p[2] + p[3], p[4], c);
        HasCharConcat(p[0] + p[1] + p[2] + p[3] + p[4], p[5], c);
        HasCharConcat(p[0] + p[1] + p[2] + p[3] + p[4] + p[5], p[6], c);
        HasCharConcat(p[0] + p[1] + p[2] + p[3] + p[4] + p[5] + p[6], p[7], c);
      } else if h > 0 {
        var p := [NatToString(h), Hour, " ", NatToString(m), Minute, " ", NatToString(s), Second];
        HasCharConcat(p[0], p[1], c);
        HasCharConcat(p[0] + p[1], p[2], c);
        HasCharConcat(p[0] + p[1] + p[2], p[3], c);
        HasCharConcat(p[0] + p[1] + p[2] + p[3], p[4], c);
        HasCharConcat(p[0] + p[1] + p[2] + p[3] + p[4], p[5], c);
        HasCharConcat(p[0] + p[1] + p[2] + p[3] + p[4] + p[5], p[6], c);
        HasCharConcat(p[0] + p[1] + p[2] + p[3] + p[4] + p[5] + p[6], p[7], c);
      } else {
        var p := [NatToString(m), Minute, " ", NatToString(s), Second];
        HasCharConcat(p[0], p[1], c);
        HasCharConcat(p[0] + p[1], p[2], c);
        HasCharConcat(p[0] + p[1] + p[2], p[3], c);
        HasCharConcat(p[0] + p[1] + p[2] + p[3], p[4], c);
      }
    }
    assert '\U{65E5}' in units && '\U{79D2}' in units && '\U{6642}' in units && '\U{5206}' in units;
  }

  datatype ByteUnit = B | KB | MB | GB

  /** The unit `_format_bytes` picks, by the thresholds 1024, 1024² and 1024³. */
  function UnitFor(n: int): ByteUnit {
    if n < 1024 then B
    else if n < 1024 * 1024 then KB
    else if n < 1024 * 1024 * 1024 then MB
    else GB
  }

  /** What the value is divided by before printing in unit `u`. */
  function Divisor(u: ByteUnit): nat {
    match u
    case B => 1
    case KB => 1024
    case MB => 1024 * 1024
    case GB => 1024 * 1024 * 1024
  }

  function Rank(u: ByteUnit): nat {
    match u
    case B => 0
    case KB => 1
    case MB => 2
    case GB => 3
  }

  /** The printed figure of a non-negative count is at least 1 in units above
      bytes and below 1024 in every unit but GB; larger counts never get a
      smaller unit. */
  lemma UnitScale(n: int, m: int)
    ensures var u := UnitFor(n);
      && (n >= 1024 ==> Divisor(u) <= n)
      && (n >= 0 && u != GB ==> n < 1024 * Divisor(u))
      && (u == B <==> n < 1024)
      && (n <= m ==> Rank(u) <= Rank(UnitFor(m)))
  {
  }

  /** Below 1 KiB the count is printed exactly: `f"{num_bytes} B"`. */
  function FormatSmallBytes(n: int): (s: string)
    requires n < 1024
    ensures |s| >= 3
    ensures n >= 0 ==> s[..|s| - 2] == NatToString(n) && s[|s| - 2..] == " B"
  {
    IntToStringSign(n);
    IntToString(n) + " B"
  }
}
