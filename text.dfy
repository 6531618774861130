/** String and time helpers the controller relies on: the JavaScript
    `trim` used to reject blank operator names, and the minute/second split
    of `formatTime`. */
module Text {

  /** The characters `String.prototype.trim` strips: the ECMAScript
      WhiteSpace code points (tab, vertical tab, form feed, the byte order
      mark and the Unicode space separators) and the four LineTerminator
      code points. */
  predicate IsJsSpace(c: char) {
    || c == '\t' || c == '\n' || c == '\U{000B}' || c == '\U{000C}' || c == '\r'
    || c == ' ' || c == '\U{00A0}' || c == '\U{1680}'
    || ('\U{2000}' <= c <= '\U{200A}')
    || c == '\U{2028}' || c == '\U{2029}' || c == '\U{202F}' || c == '\U{205F}'
    || c == '\U{3000}' || c == '\U{FEFF}'
  }

  /** Drops leading whitespace: the result is a suffix of `s` that does not
      start with whitespace, and everything dropped is whitespace. */
  function TrimStart(s: string): (r: string)
    ensures |r| <= |s| && r == s[|s| - |r|..]
    ensures r == [] || !IsJsSpace(r[0])
    ensures forall i :: 0 <= i < |s| - |r| ==> IsJsSpace(s[i])
  {
    if s != [] && IsJsSpace(s[0]) then TrimStart(s[1..]) else s
  }

  /** Drops trailing whitespace: the result is a prefix of `s` that does
      not end with whitespace, and everything dropped is whitespace. */
  function TrimEnd(s: string): (r: string)
    ensures |r| <= |s| && r == s[..|r|]
    ensures r == [] || !IsJsSpace(r[|r| - 1])
    ensures forall i :: |r| <= i < |s| ==> IsJsSpace(s[i])
  {
    if s != [] && IsJsSpace(s[|s| - 1]) then TrimEnd(s[..|s| - 1]) else s
  }

  /** `s.trim()`: what is left does not start or end with whitespace, and
      nothing is left exactly when every character is whitespace. */
  function Trim(s: string): (r: string)
    ensures |r| <= |s|
    ensures r == [] || (!IsJsSpace(r[0]) && !IsJsSpace(r[|r| - 1]))
    ensures r == [] <==> forall i :: 0 <= i < |s| ==> IsJsSpace(s[i])
  {
    TrimEnd(TrimStart(s))
  }

  /** `!s.trim()`: the trimmed name is the empty string. */
  predicate IsBlank(s: string) {
    Trim(s) == ""
  }

  /** A name is blank exactly when every character of it is whitespace (in
      particular the empty name is blank). */
  lemma BlankIffAllSpace(s: string)
    ensures IsBlank(s) <==> forall i :: 0 <= i < |s| ==> IsJsSpace(s[i])
  {
  }

  /** The minute and second fields `formatTime` prints. */
  datatype Clock = Clock(minutes: int, seconds: int)

  /** JavaScript's `%` by a positive divisor: the remainder takes the sign
      of the dividend; on a non-negative dividend it is Dafny's `%`. */
  function JsRem(a: int, b: int): (r: int)
    requires b > 0
    ensures a >= 0 ==> 0 <= r < b && r == a % b
    ensures a < 0 ==> -b < r <= 0
  {
    if a >= 0 then a % b else -((-a) % b)
  }

  /** Truncating remainder is odd in the dividend, where Dafny's Euclidean
      `%` is not: `-7 % 60` is `-7` in JavaScript and `53` in Dafny. */
  lemma JsRemOdd(a: int, b: int)
    requires b > 0
    ensures JsRem(-a, b) == -JsRem(a, b)
    ensures JsRem(-7, 60) == -7 && -7 % 60 == 53
  {
  }

  /** The integer part of `formatTime`: whole seconds are `floor(ms /
      1000)`, minutes are `floor(seconds / 60)` and the seconds field is
      `seconds % 60` with JavaScript's remainder. For a non-negative
      duration the fields are a proper minutes/seconds split of the whole
      seconds; a negative one (a clock that ran backwards) shows a
      non-positive seconds field. */
  function FormatTimeParts(ms: int): (r: Clock)
    ensures ms >= 0 ==> r.minutes >= 0 && 0 <= r.seconds < 60
    ensures ms >= 0 ==> r.minutes * 60 + r.seconds == ms / 1000
    ensures ms >= 0 ==> (r.minutes * 60 + r.seconds) * 1000 <= ms < (r.minutes * 60 + r.seconds + 1) * 1000
    ensures ms < 0 ==> r.minutes < 0 && -60 < r.seconds <= 0
  {
    var seconds := ms / 1000;  // Euclidean division by a positive number is the floor
    Clock(seconds / 60, JsRem(seconds, 60))
  }
}
