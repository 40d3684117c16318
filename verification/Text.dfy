/** The string operations the modelled code takes from the Rust standard library. */
module Text {

  /** The Unicode White_Space property, which `str::trim` strips. */
  predicate IsWhitespace(c: char) {
    var n := c as int;
    || 0x09 <= n <= 0x0D || n == 0x20 || n == 0x85 || n == 0xA0 || n == 0x1680
    || 0x2000 <= n <= 0x200A || n == 0x2028 || n == 0x2029 || n == 0x202F || n == 0x205F || n == 0x3000
  }

  function TrimStart(s: string): (r: string)
    ensures |r| <= |s|
    ensures r == [] || !IsWhitespace(r[0])
    ensures s == [] || !IsWhitespace(s[0]) ==> r == s
  {
    if s != [] && IsWhitespace(s[0]) then TrimStart(s[1..]) else s
  }

  function TrimEnd(s: string): (r: string)
    ensures |r| <= |s|
    ensures r == [] || (!IsWhitespace(r[|r| - 1]) && r[0] == s[0])
    ensures s == [] || !IsWhitespace(s[|s| - 1]) ==> r == s
  {
    if s != [] && IsWhitespace(s[|s| - 1]) then TrimEnd(s[..|s| - 1]) else s
  }

  /** Nothing to trim exactly when both ends are not white space. */
  function Trim(s: string): (r: string)
    ensures |r| <= |s|
    ensures r == s <==> s == [] || (!IsWhitespace(s[0]) && !IsWhitespace(s[|s| - 1]))
  {
    TrimEnd(TrimStart(s))
  }

  /** `trim_matches('"')`. */
  function TrimQuotes(s: string): (r: string)
    decreases |s|
  {
    if s != [] && s[0] == '"' then TrimQuotes(s[1..])
    else if s != [] && s[|s| - 1] == '"' then TrimQuotes(s[..|s| - 1])
    else s
  }

  /** `trim_start_matches(c)`. */
  function TrimLeading(s: string, c: char): string {
    if s != [] && s[0] == c then TrimLeading(s[1..], c) else s
  }

  /** `replace(c, "")`. */
  function Without(s: string, c: char): string {
    if s == [] then [] else (if s[0] == c then [] else [s[0]]) + Without(s[1..], c)
  }

  function LowerChar(c: char): char {
    if 'A' <= c <= 'Z' then c - 'A' + 'a' else c
  }

  function Lower(s: string): string {
    seq(|s|, i requires 0 <= i < |s| => LowerChar(s[i]))
  }

  /** The parts before and after the first `sep`, or nothing when there is none. */
  function IndexOf(s: string, sep: char): (n: nat)
    ensures n <= |s| && sep !in s[..n] && (n < |s| ==> s[n] == sep)
  {
    if s == [] || s[0] == sep then 0 else 1 + IndexOf(s[1..], sep)
  }

  function DigitChar(d: nat): char
    requires d < 10
  {
    '0' + d as char
  }

  /** The decimal text of an integer. */
  function Decimal(n: int): string
    decreases n < 0, if n < 0 then -n else n
  {
    if n < 0 then "-" + Decimal(-n)
    else if n < 10 then [DigitChar(n)]
    else Decimal(n / 10) + [DigitChar(n % 10)]
  }

  /** `split(sep)`: the parts between separators, at least one. */
  function Split(s: string, sep: char): (parts: seq<string>)
    ensures parts != []
  {
    if s == "" then [""]
    else
      var before := Split(s[..|s| - 1], sep);
      var n := |before| - 1;
      if s[|s| - 1] == sep then before + [""] else before[n := before[n] + [s[|s| - 1]]]
  }

  predicate IsDigits(s: string) {
    s != "" && forall c <- s :: '0' <= c <= '9'
  }

  function DigitsValue(s: string): int {
    if s == "" then 0 else 10 * DigitsValue(s[..|s| - 1]) + (s[|s| - 1] as int - '0' as int)
  }
}
