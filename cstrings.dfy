/**
 * The few C string routines the volume manager relies on, as functions on
 * `string`: NUL termination, `isspace`, `strncmp`/`strstr` prefix tests,
 * `strtok` tokenising and `strtoll` decimal conversion.
 */
module CStrings {

  /** `isspace` in the "C" locale. */
  predicate IsSpace(c: char) {
    c == ' ' || c == '\t' || c == '\n' || c == '\U{000B}' || c == '\U{000C}' || c == '\r'
  }

  /** The C string held by a buffer: everything before its first NUL. */
  function CStr(buffer: string): (r: string)
    ensures r <= buffer
    ensures forall i :: 0 <= i < |r| ==> r[i] != '\0'
    ensures |r| < |buffer| ==> buffer[|r|] == '\0'
  {
    if buffer == [] || buffer[0] == '\0' then [] else [buffer[0]] + CStr(buffer[1..])
  }

  /** Length of the run of `isspace` characters at the front of `s`. */
  function SpaceRun(s: string): (n: nat)
    ensures n <= |s|
    ensures forall i :: 0 <= i < n ==> IsSpace(s[i])
    ensures n < |s| ==> !IsSpace(s[n])
  {
    if s == [] || !IsSpace(s[0]) then 0 else 1 + SpaceRun(s[1..])
  }

  /** `s` with its leading white space skipped (`buffer + i` after the skip loop). */
  function SkipSpace(s: string): (r: string)
    ensures r == s[SpaceRun(s)..]
    ensures r != [] ==> !IsSpace(r[0])
  {
    s[SpaceRun(s)..]
  }

  /**
   * `strncmp(s, prefix, strlen(prefix)) == 0`, which for C strings is also
   * `strstr(s, prefix) == s`.
   */
  predicate StartsWith(s: string, prefix: string) {
    |prefix| <= |s| && s[..|prefix|] == prefix
  }

  /** Length of the token at the front of `s`: up to the first delimiter. */
  function TokenLength(s: string, delims: set<char>): (n: nat)
    ensures n <= |s|
    ensures forall i :: 0 <= i < n ==> s[i] !in delims
    ensures n < |s| ==> s[n] in delims
  {
    if s == [] || s[0] in delims then 0 else 1 + TokenLength(s[1..], delims)
  }

  /** A token `strtok` can return: non-empty and free of delimiters. */
  predicate IsToken(t: string, delims: set<char>) {
    t != [] && forall i :: 0 <= i < |t| ==> t[i] !in delims
  }

  /**
   * The successive results of `strtok(s, delims)`, `strtok(NULL, delims)`, ...:
   * runs of delimiters separate tokens and no token is empty.
   */
  function Tokens(s: string, delims: set<char>): (r: seq<string>)
    ensures forall k :: 0 <= k < |r| ==> IsToken(r[k], delims)
    ensures (forall i :: 0 <= i < |s| ==> s[i] in delims) <==> r == []
    decreases |s|
  {
    if s == [] then []
    else if s[0] in delims then Tokens(s[1..], delims)
    else
      var n := TokenLength(s, delims);
      [s[..n]] + Tokens(s[n..], delims)
  }

  const LLongMax: int := 0x7fff_ffff_ffff_ffff
  const LLongMin: int := -0x8000_0000_0000_0000

  predicate IsDigit(c: char) { '0' <= c <= '9' }

  /** The value of the digit run at the front of `s`, appended to `acc`. */
  function DigitsValue(s: string, acc: nat): (r: nat)
    ensures r >= acc
    decreases |s|
  {
    if s != [] && IsDigit(s[0]) then DigitsValue(s[1..], acc * 10 + (s[0] as int - '0' as int))
    else acc
  }

  function Clamp(x: int): (r: int)
    ensures LLongMin <= r <= LLongMax
    ensures LLongMin <= x <= LLongMax ==> r == x
  {
    if x < LLongMin then LLongMin else if x > LLongMax then LLongMax else x
  }

  /**
   * `strtoll(s, NULL, 10)`: leading white space, an optional sign, then the
   * longest run of decimal digits; no digits gives 0; out-of-range values
   * saturate at LLONG_MIN / LLONG_MAX.
   */
  function StrToLL(s: string): (r: int)
    ensures LLongMin <= r <= LLongMax
  {
    var t := SkipSpace(s);
    if t != [] && t[0] == '-' then Clamp(0 - DigitsValue(t[1..], 0) as int)
    else if t != [] && t[0] == '+' then Clamp(DigitsValue(t[1..], 0))
    else Clamp(DigitsValue(t, 0))
  }

  /** Decimal rendering of a natural number, most significant digit first. */
  function Decimal(n: nat): (r: string)
    ensures r != [] && forall i :: 0 <= i < |r| ==> IsDigit(r[i])
  {
    if n < 10 then [('0' as int + n) as char]
    else Decimal(n / 10) + [('0' as int + n % 10) as char]
  }
}
