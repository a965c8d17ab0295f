/** JSON values as the decoded token claims and parsed files present them, together with the
    JavaScript coercions that the credential code applies to them: truthiness (`!!x`),
    numeric conversion (`x - y`), `parseInt(x, 10)` and `String(x)` for the few shapes that
    matter here. */
module JsValues {

  datatype Option<+T> = None | Some(value: T)

  datatype Result<+T, +E> = Ok(value: T) | Err(error: E)

  /** A JSON document. Numbers are exact reals: the model has no floating point. */
  datatype Json =
    | JNull
    | JBool(b: bool)
    | JNum(n: real)
    | JStr(s: string)
    | JArr(items: seq<Json>)
    | JObj(fields: map<string, Json>)

  /** What a JWT decoding library hands back for a token string: nothing (the string is not a
      JWT), a payload that is a plain string, or a claims object. No signature is checked. */
  datatype Decoded = DNone | DStr(s: string) | DObj(claims: map<string, Json>)

  type JwtDecoder = string -> Decoded

  /** `obj[key]` on a JSON object: None when the key is absent (JavaScript's `undefined`). */
  function Get(m: map<string, Json>, key: string): (r: Option<Json>)
    ensures r.Some? <==> key in m
    ensures r.Some? ==> r.value == m[key]
  {
    if key in m then Some(m[key]) else None
  }

  /** `!!v` for a JSON value. */
  predicate Truthy(v: Json) {
    match v
    case JNull => false
    case JBool(b) => b
    case JNum(n) => n != 0.0
    case JStr(s) => s != ""
    case JArr(_) => true
    case JObj(_) => true
  }

  /** `!!v` for a value that may be `undefined`. */
  predicate TruthyOpt(v: Option<Json>) {
    v.Some? && Truthy(v.value)
  }

  /** `!!s` for an optional string (an absent one is `undefined`). */
  predicate TruthyStr(s: Option<string>) {
    s.Some? && s.value != ""
  }

  /** JavaScript's `a || b` on two optional strings. */
  function OrElse(a: Option<string>, b: Option<string>): (r: Option<string>)
    ensures TruthyStr(a) ==> r == a
    ensures !TruthyStr(a) ==> r == b
  {
    if TruthyStr(a) then a else b
  }

  /** A JavaScript number as far as this code can produce one: a real or NaN. */
  datatype JsNumber = Num(value: real) | NaN

  /** An integer produced by `parseInt`, or NaN. */
  datatype JsInt = Int(value: int) | IntNaN

  // ---------------------------------------------------------------------------------------
  // Characters and digits

  /** JavaScript's WhiteSpace and LineTerminator characters (what `\s` and `trim` use). */
  predicate IsJsSpace(c: char) {
    || c == ' ' || c == '\t' || c == '\n' || c == '\r' || c == '\U{000B}' || c == '\U{000C}'
    || c == '\U{00A0}' || c == '\U{1680}' || ('\U{2000}' <= c <= '\U{200A}')
    || c == '\U{2028}' || c == '\U{2029}' || c == '\U{202F}' || c == '\U{205F}'
    || c == '\U{3000}' || c == '\U{FEFF}'
  }

  predicate IsDigit(c: char) { '0' <= c <= '9' }

  predicate AllDigits(s: string) {
    forall i :: 0 <= i < |s| ==> IsDigit(s[i])
  }

  function DigitValue(c: char): (d: nat)
    requires IsDigit(c)
    ensures d < 10
  {
    (c as int) - ('0' as int)
  }

  /** The value of a run of decimal digits, most significant first. */
  function DigitsValue(s: string): (v: nat)
    requires AllDigits(s)
  {
    if s == [] then 0 else 10 * DigitsValue(s[..|s| - 1]) + DigitValue(s[|s| - 1])
  }

  /** The length of the longest prefix of `s` made of digits. */
  function DigitRun(s: string): (n: nat)
    ensures n <= |s|
    ensures AllDigits(s[..n])
    ensures n < |s| ==> !IsDigit(s[n])
  {
    if s == [] || !IsDigit(s[0]) then 0
    else
      var k := DigitRun(s[1..]);
      assert s[..1 + k] == [s[0]] + s[1..][..k];
      1 + k
  }

  function TrimStart(s: string): (r: string)
    ensures |r| <= |s| && r == s[|s| - |r|..]
    ensures r == [] || !IsJsSpace(r[0])
    ensures forall i :: 0 <= i < |s| - |r| ==> IsJsSpace(s[i])
  {
    if s != [] && IsJsSpace(s[0]) then TrimStart(s[1..]) else s
  }

  function TrimEnd(s: string): (r: string)
    ensures |r| <= |s| && r == s[..|r|]
    ensures r == [] || !IsJsSpace(r[|r| - 1])
    ensures forall i :: |r| <= i < |s| ==> IsJsSpace(s[i])
  {
    if s != [] && IsJsSpace(s[|s| - 1]) then TrimEnd(s[..|s| - 1]) else s
  }

  function Pow10(n: nat): (p: nat)
    ensures p >= 1
  {
    if n == 0 then 1 else 10 * Pow10(n - 1)
  }

  // ---------------------------------------------------------------------------------------
  // Number(s): the conversion that `a - b` applies to a string operand

  /** Unsigned decimal literal: digits, optionally followed by `.` and more digits, with at
      least one digit in all. */
  function UnsignedDecimal(s: string): (r: JsNumber)
  {
    var k := DigitRun(s);
    var whole := s[..k];
    if k == |s| then (if k == 0 then NaN else Num(DigitsValue(whole) as real))
    else if s[k] != '.' then NaN
    else
      var frac := s[k + 1..];
      if !AllDigits(frac) || (k == 0 && frac == []) then NaN
      else Num(DigitsValue(whole) as real + (DigitsValue(frac) as real) / (Pow10(|frac|) as real))
  }

  /** JavaScript's conversion of a string to a number, for decimal notation: surrounding white
      space is ignored, the empty string is 0, an optional sign precedes the literal. */
  function StringToNumber(s: string): JsNumber
  {
    var t := TrimEnd(TrimStart(s));
    if t == [] then Num(0.0)
    else if t[0] == '-' then
      (match UnsignedDecimal(t[1..]) case Num(x) => Num(-x) case NaN => NaN)
    else if t[0] == '+' then UnsignedDecimal(t[1..])
    else UnsignedDecimal(t)
  }

  /** The numeric value JavaScript uses for `v` in an arithmetic expression such as `v - now`.
      An array converts through its comma-joined text, so an empty array is 0, a one-element
      array is its element's conversion, and a longer one contains a comma and is NaN. */
  function ToNumber(v: Json): (r: JsNumber)
    ensures v.JNum? ==> r == Num(v.n)
    ensures v.JObj? ==> r == NaN
  {
    match v
    case JNull => Num(0.0)
    case JBool(b) => Num(if b then 1.0 else 0.0)
    case JNum(n) => Num(n)
    case JStr(s) => StringToNumber(s)
    case JArr(items) =>
      if |items| == 0 then Num(0.0)
      else if |items| > 1 then NaN
      else (match items[0]
            case JNull => Num(0.0)     // String([null]) is ""
            case JBool(_) => NaN       // "true" / "false"
            case JObj(_) => NaN        // "[object Object]"
            case _ => ToNumber(items[0]))
    case JObj(_) => NaN
  }

  // ---------------------------------------------------------------------------------------
  // parseInt(String(v), 10)

  /** `parseInt(s, 10)`: leading white space, an optional sign, then the longest run of
      digits; NaN when that run is empty. */
  function ParseIntPrefix(s: string): (r: JsInt)
    ensures r.Int? <==> DigitRun(SignlessPart(TrimStart(s))) > 0
  {
    var t := TrimStart(s);
    var neg := t != [] && t[0] == '-';
    var body := SignlessPart(t);
    var k := DigitRun(body);
    if k == 0 then IntNaN
    else
      var v: int := DigitsValue(body[..k]);
      Int(if neg then -v else v)
  }

  /** The text after an optional leading `+` or `-`. */
  function SignlessPart(t: string): (r: string)
    ensures r == t || (t != [] && (t[0] == '-' || t[0] == '+') && r == t[1..])
  {
    if t != [] && (t[0] == '-' || t[0] == '+') then t[1..] else t
  }

  /** Truncation toward zero, which is what `parseInt` makes of an ordinary number's text. */
  function Trunc(x: real): (r: int)
    ensures 0.0 <= x ==> r as real <= x < r as real + 1.0
    ensures x < 0.0 ==> r as real - 1.0 < x <= r as real
  {
    if x >= 0.0 then x.Floor else -((-x).Floor)
  }

  /** `parseInt(v, 10)` for a value that may be `undefined`. */
  function ParseIntOf(v: Option<Json>): (r: JsInt)
    ensures v.None? ==> r == IntNaN
  {
    match v
    case None => IntNaN
    case Some(j) => ParseIntOfJson(j)
  }

  /** `parseInt(j, 10)` for a JSON value: `null`, booleans and objects have no leading digits;
      an array is parsed through its comma-joined text, whose prefix up to the first comma is its
      first element's text. */
  function ParseIntOfJson(j: Json): (r: JsInt)
    ensures j.JNum? ==> r == Int(Trunc(j.n))
    ensures j.JNull? || j.JBool? || j.JObj? ==> r == IntNaN
  {
    match j
    case JNull => IntNaN
    case JBool(_) => IntNaN
    case JNum(n) => Int(Trunc(n))
    case JStr(s) => ParseIntPrefix(s)
    case JArr(items) => if items == [] then IntNaN else ParseIntOfJson(items[0])
    case JObj(_) => IntNaN
  }

  // ---------------------------------------------------------------------------------------
  // Lemmas

  lemma {:induction false} DigitsValueSnoc(s: string, c: char)
    requires AllDigits(s) && IsDigit(c)
    ensures AllDigits(s + [c])
    ensures DigitsValue(s + [c]) == 10 * DigitsValue(s) + DigitValue(c)
  {
    assert (s + [c])[..|s + [c]| - 1] == s;
  }

  /** The digit run of a string of digits is the whole string. */
  lemma {:induction false} DigitRunOfDigits(s: string)
    requires AllDigits(s)
    ensures DigitRun(s) == |s|
  {
    if s != [] {
      DigitRunOfDigits(s[1..]);
    }
  }

  /** A string of digits with a leading minus sign has no white space to trim. */
  lemma SignedDigitsUntrimmed(digits: string)
    requires digits != [] && AllDigits(digits)
    ensures TrimStart("-" + digits) == "-" + digits
    ensures TrimEnd("-" + digits) == "-" + digits
    ensures ("-" + digits)[1..] == digits
  {
    var s := "-" + digits;
    assert !IsJsSpace(s[0]);
    assert s[|s| - 1] == digits[|digits| - 1];
    assert !IsJsSpace(s[|s| - 1]);
  }

  /** `Number("-123")` is the negated digit value. */
  lemma NumberOfSignedDigits(digits: string)
    requires digits != [] && AllDigits(digits)
    ensures StringToNumber("-" + digits) == Num(-(DigitsValue(digits) as real))
  {
    SignedDigitsUntrimmed(digits);
    DigitRunOfDigits(digits);
    assert digits[..|digits|] == digits;
  }

  /** `parseInt("-123", 10)` is the negated digit value. */
  lemma ParseIntOfSignedDigits(digits: string)
    requires digits != [] && AllDigits(digits)
    ensures ParseIntPrefix("-" + digits) == Int(-(DigitsValue(digits) as int))
  {
    SignedDigitsUntrimmed(digits);
    DigitRunOfDigits(digits);
    assert SignlessPart("-" + digits) == digits;
    assert digits[..|digits|] == digits;
  }
}
