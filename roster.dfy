/**
 * The site roster as the workers see it (one spreadsheet row per plant,
 * every cell read as text with empty cells as ""), the `int(float(port))`
 * port check, and the first-match name lookup of `display_details`.
 */
module Roster {
  import opened Wrappers
  import opened Text

  /**
   * One roster row. Fields are the columns SANTRAL ADI, STATİK IP,
   * ROUTER KULLANICI ADI, ROUTER ŞİFRE, SSH PORT and ROUTER.
   */
  datatype SiteRow = SiteRow(
    name: string,
    staticIp: string,
    routerUser: string,
    routerPassword: string,
    sshPort: string,
    router: string)

  predicate IsDigit(c: char) {
    '0' <= c <= '9'
  }

  predicate AllDigits(s: string) {
    forall i :: 0 <= i < |s| ==> IsDigit(s[i])
  }

  /** The number written by a string of decimal digits ("" reads as 0). */
  function DigitsValue(s: string): nat
    requires AllDigits(s)
  {
    if s == [] then 0
    else 10 * DigitsValue(s[..|s| - 1]) + (s[|s| - 1] as int - '0' as int)
  }

  function DigitChar(d: nat): (c: char)
    requires d < 10
    ensures IsDigit(c) && c as int - '0' as int == d
  {
    ('0' as int + d) as char
  }

  /** The decimal numeral of `n`; reading it back gives `n`. */
  function DecimalString(n: nat): (s: string)
    ensures 0 < |s| && AllDigits(s)
    ensures DigitsValue(s) == n
  {
    if n < 10 then [DigitChar(n)]
    else
      var s := DecimalString(n / 10) + [DigitChar(n % 10)];
      assert s[..|s| - 1] == DecimalString(n / 10);
      s
  }

  /** Index of the first `c` in `s`, or |s| when there is none. */
  function IndexOf(s: string, c: char): (i: nat)
    ensures i <= |s|
  {
    if s == [] || s[0] == c then 0
    else 1 + IndexOf(s[1..], c)
  }

  /**
   * The unsigned part of `int(float(text))`: digits with at most one '.',
   * at least one digit in all; the fraction is dropped.
   */
  function ParseUnsigned(body: string): (r: Option<nat>)
    ensures r.Some? ==> exists k :: 0 <= k < |body| && IsDigit(body[k])
  {
    var dot := IndexOf(body, '.');
    var whole := body[..dot];
    var frac := if dot < |body| then body[dot + 1..] else [];
    if 0 < |whole| + |frac| && AllDigits(whole) && AllDigits(frac) then
      assert 0 < dot ==> body[0] == whole[0];
      assert dot == 0 ==> body[1] == frac[0];
      Some(DigitsValue(whole))
    else
      None
  }

  /** An optional leading sign, then the unsigned part; truncation is toward zero. */
  function ParseSigned(t: string): (r: Option<int>)
    ensures r.Some? ==> exists k :: 0 <= k < |t| && IsDigit(t[k])
  {
    if 0 < |t| && (t[0] == '-' || t[0] == '+') then
      match ParseUnsigned(t[1..])
      case None => None
      case Some(v) =>
        assert forall k :: 0 <= k < |t| - 1 ==> t[1..][k] == t[k + 1];
        var n: int := if t[0] == '-' then -(v as int) else v;
        Some(n)
    else
      ParseUnsigned(t)
  }

  /**
   * The information separators U+001C .. U+001F: whitespace to
   * `str.strip()`, but not among the whitespace `float()` removes around a
   * number.
   */
  predicate IsSeparator(c: char) {
    '\U{1C}' <= c <= '\U{1F}'
  }

  /** No separator among s[lo..hi]. */
  predicate NoSeparatorIn(s: string, lo: nat, hi: nat)
    requires lo <= hi <= |s|
    decreases hi - lo
  {
    lo == hi || (!IsSeparator(s[lo]) && NoSeparatorIn(s, lo + 1, hi))
  }

  /** A separator in s[lo..hi] is found by `NoSeparatorIn`. */
  lemma {:induction false} SeparatorIn(s: string, lo: nat, hi: nat, k: nat)
    requires lo <= k < hi <= |s| && IsSeparator(s[k])
    ensures !NoSeparatorIn(s, lo, hi)
    decreases k - lo
  {
    if lo < k {
      SeparatorIn(s, lo + 1, hi, k);
    }
  }

  /**
   * Every character `Strip` cuts from `text` is one `float()` cuts too. When
   * this fails, `float()` stops at a separator that is left at an end of the
   * number, where neither a digit, a sign nor '.' stands, and raises.
   */
  predicate CutsFloatSpace(text: string) {
    && NoSeparatorIn(text, 0, LeftEnd(text))
    && (RightEnd(text) <= |text| && NoSeparatorIn(text, RightEnd(text), |text|))
  }

  /** Every whole number up to 2^53 is a double, so `float` reads it exactly. */
  const TwoPow53: nat := 0x20_0000_0000_0000

  /** Below 2^50 doubles are 1/8 or less apart. */
  const TwoPow50: nat := 0x4_0000_0000_0000

  /**
   * `int(float(text))` on decimal text: surrounding whitespace (only the
   * characters `float` removes, see `CutsFloatSpace`), an optional sign, then ASCII digits with at most one '.', at least one digit in all,
   * read exactly and truncated toward zero. Every other text is None here.
   * Python reads a double instead, so the two agree on the ranges the lemmas
   * below state (whole parts below 2^53, or below 2^50 with a fraction), and
   * not on the texts Python reads otherwise (exponents, `inf`/`nan`,
   * underscores, non-ASCII digits) or on numerals past the double range.
   */
  function ParsePort(text: string): (r: Option<int>)
    ensures r.Some? ==> exists k :: 0 <= k < |text| && IsDigit(text[k])
  {
    if !CutsFloatSpace(text) then None
    else
      var t := Strip(text);
      var r := ParseSigned(t);
      if r.Some? then
        var k :| 0 <= k < |t| && IsDigit(t[k]);
        StripSpec(text);
        assert IsDigit(text[LeftEnd(text) + k]);
        r
      else
        r
  }

  /**
   * An ASCII port cell with no digit in it never passes the port check
   * (Python's `float` also takes `inf` and `nan` but `int` then raises; a
   * non-ASCII decimal digit such as '２' is a digit to Python).
   */
  lemma NoDigitNoPort(text: string)
    requires forall k :: 0 <= k < |text| ==> text[k] < '\U{80}' && !IsDigit(text[k])
    ensures ParsePort(text) == None
  {
  }

  /** Text that begins and ends with a digit is left alone by strip. */
  lemma StripDigitEnds(s: string)
    requires 0 < |s| && IsDigit(s[0]) && IsDigit(s[|s| - 1])
    ensures LeftEnd(s) == 0 && RightEnd(s) == |s|
    ensures Strip(s) == s
  {
    assert LeftEnd(s) == 0;
    assert RightEnd(s) == |s|;
  }

  /** No `c` comes before `IndexOf(s, c)`, and a `c` stands there unless it is |s|. */
  lemma {:induction false} IndexOfSpec(s: string, c: char)
    ensures forall j :: 0 <= j < IndexOf(s, c) ==> s[j] != c
    ensures IndexOf(s, c) < |s| ==> s[IndexOf(s, c)] == c
  {
    if s != [] && s[0] != c {
      IndexOfSpec(s[1..], c);
      assert forall j :: 1 <= j < IndexOf(s, c) ==> s[j] == s[1..][j - 1];
    }
  }

  /** Only the first `c` is reported: any index with no `c` before it and a `c` at it (or at |s|) is IndexOf. */
  lemma {:induction false} IndexOfFirst(s: string, c: char, i: nat)
    requires i <= |s|
    requires forall j :: 0 <= j < i ==> s[j] != c
    requires i < |s| ==> s[i] == c
    ensures IndexOf(s, c) == i
  {
    if 0 < i {
      IndexOfFirst(s[1..], c, i - 1);
    }
  }

  /**
   * A U+001C .. U+001F in the leading whitespace of a port cell makes it fail
   * the port check, although `str.strip()` would remove it: `float()` does not.
   */
  lemma SeparatorBeforePortRejected(text: string, k: nat)
    requires k < |text| && IsSeparator(text[k])
    requires forall j :: 0 <= j < k ==> IsSpace(text[j])
    ensures ParsePort(text) == None
  {
    LeftEndSpec(text);
    SeparatorIn(text, 0, LeftEnd(text), k);
  }

  /** The same U+001C .. U+001F in the trailing whitespace. */
  lemma SeparatorAfterPortRejected(text: string, k: nat)
    requires k < |text| && IsSeparator(text[k])
    requires forall j :: k < j < |text| ==> IsSpace(text[j])
    ensures ParsePort(text) == None
  {
    RightEndSpec(text);
    SeparatorIn(text, RightEnd(text), |text|, k);
  }

  /** Text that begins and ends with a digit is read without strip or sign. */
  lemma PortOfDigitEnds(s: string)
    requires 0 < |s| && IsDigit(s[0]) && IsDigit(s[|s| - 1])
    ensures ParsePort(s) == ParseUnsigned(s)
  {
    StripDigitEnds(s);
  }

  /**
   * Digits, a '.', one more digit: the fraction digit is dropped. Below
   * 2^50 a double is within 1/16 of `w.c`, so `float` never rounds it up to
   * the next whole number.
   */
  lemma UnsignedFraction(w: string, c: char)
    requires 0 < |w| && AllDigits(w) && IsDigit(c) && DigitsValue(w) < TwoPow50
    ensures ParseUnsigned(w + "." + [c]) == Some(DigitsValue(w))
  {
    var s := w + "." + [c];
    assert forall j :: 0 <= j < |w| ==> s[j] == w[j];
    IndexOfFirst(s, '.', |w|);
    assert s[..|w|] == w;
    assert s[|w| + 1..] == [c];
  }

  /**
   * Reading the decimal numeral of a port number gives the number back, up
   * to 2^53, below which every whole number is a double.
   */
  lemma PortRoundTrip(n: nat)
    requires n <= TwoPow53
    ensures ParsePort(DecimalString(n)) == Some(n)
  {
    var s := DecimalString(n);
    PortOfDigitEnds(s);
    IndexOfFirst(s, '.', |s|);
    assert s[..|s|] == s;
  }

  /** A spreadsheet float such as "22.0" truncates to its whole part, below 2^50. */
  lemma PortFractionTruncated(n: nat, d: nat)
    requires n < TwoPow50 && d < 10
    ensures ParsePort(DecimalString(n) + "." + [DigitChar(d)]) == Some(n)
  {
    var w := DecimalString(n);
    var s := w + "." + [DigitChar(d)];
    assert s[0] == w[0];
    PortOfDigitEnds(s);
    UnsignedFraction(w, DigitChar(d));
  }

  /**
   * The row the detail view selects for a roster name: the first row whose
   * name is exactly `name`, or None when no row has it.
   */
  function FindSite(roster: seq<SiteRow>, name: string): (r: Option<nat>)
    ensures r.Some? ==> r.value < |roster| && roster[r.value].name == name
    ensures r.Some? ==> forall j :: 0 <= j < r.value ==> roster[j].name != name
    ensures r.None? <==> forall j :: 0 <= j < |roster| ==> roster[j].name != name
  {
    if roster == [] then None
    else if roster[0].name == name then Some(0)
    else
      match FindSite(roster[1..], name)
      case None => None
      case Some(k) => Some(k + 1)
  }

  /**
   * `display_details`: an empty selection, or a name that no row carries,
   * leaves no row selected; otherwise the first row with exactly that name
   * is selected.
   */
  function DisplayDetails(roster: seq<SiteRow>, name: string): (selected: Option<SiteRow>)
    ensures selected.None? <==>
      name == "" || forall j :: 0 <= j < |roster| ==> roster[j].name != name
    ensures selected.Some? ==>
      exists j :: 0 <= j < |roster| && selected.value == roster[j] && roster[j].name == name
        && forall i :: 0 <= i < j ==> roster[i].name != name
  {
    if name == "" then None
    else
      match FindSite(roster, name)
      case None => None
      case Some(j) => Some(roster[j])
  }
}
