/**
 * Values read from upstream ODBC rows, and the few Python built-ins that the
 * ingestion code applies to them: truthiness, `str()`, `str.strip()`,
 * `float()` and `date.isoformat()`.
 */
module Cells {
  import opened Wrappers

  // ---------------------------------------------------------------------
  // Calendar dates and their ISO text
  // ---------------------------------------------------------------------

  datatype CalendarDate = CalendarDate(year: int, month: int, day: int)

  predicate IsLeapYear(y: int) {
    y % 4 == 0 && (y % 100 != 0 || y % 400 == 0)
  }

  function DaysInMonth(y: int, m: int): int
    requires 1 <= m <= 12
  {
    if m == 2 then (if IsLeapYear(y) then 29 else 28)
    else if m == 4 || m == 6 || m == 9 || m == 11 then 30
    else 31
  }

  /** The dates Python's `datetime.date` can hold (years 1 to 9999). */
  predicate IsValidDate(d: CalendarDate) {
    1 <= d.year <= 9999 && 1 <= d.month <= 12 && 1 <= d.day <= DaysInMonth(d.year, d.month)
  }

  type ValidDate = d: CalendarDate | IsValidDate(d) witness CalendarDate(1, 1, 1)

  function Pow10(w: nat): nat {
    if w == 0 then 1 else 10 * Pow10(w - 1)
  }

  function DigitChar(n: int): char
    requires 0 <= n < 10
  {
    ('0' as int + n) as char
  }

  /** The last `width` decimal digits of `n`, zero-padded on the left. */
  function Digits(n: nat, width: nat): (r: string)
    ensures |r| == width
  {
    if width == 0 then [] else Digits(n / 10, width - 1) + [DigitChar(n % 10)]
  }

  /** Zero-padded digits of a number that fits the width are a faithful code for it. */
  lemma {:induction false} DigitsInjective(n: nat, m: nat, width: nat)
    requires n < Pow10(width) && m < Pow10(width)
    requires Digits(n, width) == Digits(m, width)
    ensures n == m
  {
    if width > 0 {
      var dn, dm := Digits(n, width), Digits(m, width);
      assert dn[width - 1] == dm[width - 1];
      assert DigitChar(n % 10) == DigitChar(m % 10);
      assert n % 10 == m % 10;
      assert dn[..width - 1] == Digits(n / 10, width - 1);
      assert dm[..width - 1] == Digits(m / 10, width - 1);
      DigitsInjective(n / 10, m / 10, width - 1);
    }
  }

  /** `date.isoformat()`: YYYY-MM-DD. */
  function IsoFormat(d: ValidDate): (r: string)
    ensures |r| == 10 && r[4] == '-' && r[7] == '-'
  {
    Digits(d.year, 4) + "-" + Digits(d.month, 2) + "-" + Digits(d.day, 2)
  }

  /** Different dates never print the same ISO text. */
  lemma IsoFormatInjective(a: ValidDate, b: ValidDate)
    requires IsoFormat(a) == IsoFormat(b)
    ensures a == b
  {
    var s, t := IsoFormat(a), IsoFormat(b);
    assert s[..4] == Digits(a.year, 4) && t[..4] == Digits(b.year, 4);
    assert s[5..7] == Digits(a.month, 2) && t[5..7] == Digits(b.month, 2);
    assert s[8..] == Digits(a.day, 2) && t[8..] == Digits(b.day, 2);
    DigitsInjective(a.year, b.year, 4);
    DigitsInjective(a.month, b.month, 2);
    DigitsInjective(a.day, b.day, 2);
  }

  // ---------------------------------------------------------------------
  // str.strip()
  // ---------------------------------------------------------------------

  /** The ASCII characters `str.isspace()` accepts. */
  predicate IsSpace(c: char) {
    c == ' ' || ('\t' <= c <= '\r') || ('\U{1C}' <= c <= '\U{1F}')
  }

  predicate AllSpace(s: string) {
    forall k :: 0 <= k < |s| ==> IsSpace(s[k])
  }

  /** Number of whitespace characters at the start of `s`. */
  function LeadingSpaces(s: string): (n: nat)
    ensures n <= |s|
  {
    if s != [] && IsSpace(s[0]) then 1 + LeadingSpaces(s[1..]) else 0
  }

  lemma {:induction false} LeadingSpacesSpec(s: string)
    ensures var n := LeadingSpaces(s);
      AllSpace(s[..n]) && (n < |s| ==> !IsSpace(s[n]))
  {
    if s != [] && IsSpace(s[0]) {
      LeadingSpacesSpec(s[1..]);
      var n := LeadingSpaces(s);
      assert s[..n] == [s[0]] + s[1..][..n - 1];
    }
  }

  /** Number of whitespace characters at the end of `s`. */
  function TrailingSpaces(s: string): (n: nat)
    ensures n <= |s|
  {
    if s != [] && IsSpace(s[|s| - 1]) then 1 + TrailingSpaces(s[..|s| - 1]) else 0
  }

  lemma {:induction false} TrailingSpacesSpec(s: string)
    ensures var n := TrailingSpaces(s);
      AllSpace(s[|s| - n..]) && (n < |s| ==> !IsSpace(s[|s| - 1 - n]))
  {
    if s != [] && IsSpace(s[|s| - 1]) {
      var init := s[..|s| - 1];
      TrailingSpacesSpec(init);
      var m := TrailingSpaces(s);
      assert s[|s| - m..] == init[|init| - (m - 1)..] + [s[|s| - 1]];
    }
  }

  /**
   * `str.strip()`: the longest infix of `s` that neither starts nor ends with
   * whitespace, obtained by removing only whitespace from both ends.
   */
  function Strip(s: string): string {
    var t := s[LeadingSpaces(s)..];
    t[..|t| - TrailingSpaces(t)]
  }

  /**
   * `Strip(s)` is an infix of `s` with only whitespace cut on either side, and it
   * neither starts nor ends with whitespace.
   */
  lemma StripSpec(s: string)
    ensures var r := Strip(s);
      && (exists i, j :: 0 <= i <= j <= |s| && r == s[i..j] && AllSpace(s[..i]) && AllSpace(s[j..]))
      && (r == [] || (!IsSpace(r[0]) && !IsSpace(r[|r| - 1])))
  {
    var i := LeadingSpaces(s);
    var t := s[i..];
    LeadingSpacesSpec(s);
    TrailingSpacesSpec(t);
    var j := i + |t| - TrailingSpaces(t);
    assert s[i..j] == t[..|t| - TrailingSpaces(t)];
    assert s[j..] == t[|t| - TrailingSpaces(t)..];
  }

  lemma StripIdempotent(s: string)
    ensures Strip(Strip(s)) == Strip(s)
  {
    var r := Strip(s);
    StripSpec(s);
    assert r != [] ==> !IsSpace(r[0]) && !IsSpace(r[|r| - 1]);
    assert LeadingSpaces(r) == 0;
    assert r[0..] == r;
    assert TrailingSpaces(r) == 0;
  }

  // ---------------------------------------------------------------------
  // Raw cells and the built-ins applied to them
  // ---------------------------------------------------------------------

  /** A value in a row returned by the ODBC driver. */
  datatype Cell = NullCell | StrCell(s: string) | NumCell(x: real) | DateCell(d: ValidDate)

  /**
   * The parts of Python this model does not define: `float()` of a string,
   * which may fail (None), and `str()` of a number.
   */
  datatype Builtins = Builtins(parseFloat: string -> Option<real>, showNum: real -> string)

  /** Python truthiness: None, "" and 0 are falsy; a date is always truthy. */
  predicate Truthy(c: Cell) {
    match c
    case NullCell => false
    case StrCell(s) => s != ""
    case NumCell(x) => x != 0.0
    case DateCell(_) => true
  }

  /** `str(c)`; for a date this is its ISO text. */
  function Show(c: Cell, b: Builtins): string {
    match c
    case NullCell => "None"
    case StrCell(s) => s
    case NumCell(x) => b.showNum(x)
    case DateCell(d) => IsoFormat(d)
  }

  /** `str(v).strip() if v else None`: every falsy value becomes None. */
  function StrippedIfTruthy(c: Cell, b: Builtins): Option<string> {
    if Truthy(c) then Some(Strip(Show(c, b))) else None
  }

  /** `float(c)`, or None where Python raises (None, a date, an unparsable string). */
  function PyFloat(c: Cell, b: Builtins): Option<real> {
    match c
    case NullCell => None
    case StrCell(s) => b.parseFloat(s)
    case NumCell(x) => Some(x)
    case DateCell(_) => None
  }

  /** A row returned by an ODBC query. */
  type Row = seq<Cell>

  /** What a query yields: its rows, or a failure of the connection or the query. */
  datatype QueryOutcome = Rows(rows: seq<Row>) | QueryFailed

  /** `row[i]`, or None where Python raises IndexError. */
  function CellAt(row: seq<Cell>, i: nat): Option<Cell> {
    if i < |row| then Some(row[i]) else None
  }
}
