/** Small building blocks shared by every part of the workflow-driver model:
    optional values, results with the exceptions the Python code raises,
    ASCII lower-casing (Python's `str.lower()` on serial numbers), a
    first-match search (the ORM's `objects.get(...)` and the
    `[...][0]` idiom) and Python's `long()` on a decimal string. */
module Common {

  datatype Option<T> = None | Some(value: T)

  datatype Result<T, E> = Ok(value: T) | Err(error: E)

  /** What a Python call raised instead of returning. */
  datatype Failure =
    | Deferred(message: string)      // DeferredException: the caller retries later
    | Raised(message: string)        // a plain Exception carrying this message
    | UndefinedName(name: string)    // NameError: the code refers to a name that is not bound
    | NoSuchObject(model: string)    // objects.get(...) found nothing and nobody caught it
    | NotANumber(text: string)       // ValueError from long(text)
    | AssertionFailed                // an `assert` statement failed

  // ---------------------------------------------------------------------
  // Case-insensitive comparison of serial numbers

  function LowerChar(c: char): char {
    if 'A' <= c <= 'Z' then (c as int + 32) as char else c
  }

  /** `s.lower()` restricted to ASCII letters. */
  function Lower(s: string): (r: string)
    ensures |r| == |s|
    ensures forall i :: 0 <= i < |s| ==> r[i] == LowerChar(s[i])
    ensures forall i :: 0 <= i < |r| ==> !('A' <= r[i] <= 'Z')
  {
    seq(|s|, i requires 0 <= i < |s| => LowerChar(s[i]))
  }

  predicate EqualsIgnoreCase(a: string, b: string) {
    Lower(a) == Lower(b)
  }

  // ---------------------------------------------------------------------
  // First match

  /** Index of the first element satisfying `p`, if there is one. */
  function FirstIndexWhere<T>(s: seq<T>, p: T -> bool): (r: Option<nat>)
    ensures r.Some? ==> r.value < |s| && p(s[r.value])
    ensures r.Some? ==> forall j :: 0 <= j < r.value ==> !p(s[j])
    ensures r.None? <==> forall j :: 0 <= j < |s| ==> !p(s[j])
  {
    if s == [] then None
    else if p(s[0]) then Some(0)
    else match FirstIndexWhere(s[1..], p)
      case None => None
      case Some(k) => Some(k + 1)
  }

  // ---------------------------------------------------------------------
  // long(text) on a decimal string

  predicate IsDigit(c: char) { '0' <= c <= '9' }

  function DigitValue(c: char): nat
    requires IsDigit(c)
  {
    c as int - '0' as int
  }

  /** The value of a non-empty run of decimal digits, most significant first. */
  function DigitsValue(s: string): nat
    requires forall i :: 0 <= i < |s| ==> IsDigit(s[i])
  {
    if s == [] then 0 else DigitsValue(s[..|s| - 1]) * 10 + DigitValue(s[|s| - 1])
  }

  predicate AllDigits(s: string) {
    |s| > 0 && forall i :: 0 <= i < |s| ==> IsDigit(s[i])
  }

  /** The whitespace C's `isspace` recognises: space, tab, line feed,
      vertical tab, form feed and carriage return. */
  predicate IsSpace(c: char) {
    c == ' ' || '\t' <= c <= '\r'
  }

  predicate AllSpace(s: string) {
    forall i :: 0 <= i < |s| ==> IsSpace(s[i])
  }

  /** `s` without its leading whitespace. */
  function TrimLeft(s: string): (r: string)
    ensures |r| <= |s|
    ensures r != [] ==> !IsSpace(r[0])
  {
    if s != [] && IsSpace(s[0]) then TrimLeft(s[1..]) else s
  }

  /** `s` without its trailing whitespace. */
  function TrimRight(s: string): (r: string)
    ensures |r| <= |s|
    ensures r != [] ==> !IsSpace(r[|r| - 1])
  {
    if s != [] && IsSpace(s[|s| - 1]) then TrimRight(s[..|s| - 1]) else s
  }

  /** `t` without a final `L` or `l`, the suffix Python 2 allows on a long. */
  function StripSuffix(t: string): string {
    if t != [] && (t[|t| - 1] == 'L' || t[|t| - 1] == 'l') then t[..|t| - 1] else t
  }

  /** An optional sign, whitespace after it, then nothing but digits. */
  function SignedValue(body: string): Option<int> {
    if body != [] && (body[0] == '+' || body[0] == '-') && AllDigits(TrimLeft(body[1..])) then
      var magnitude := DigitsValue(TrimLeft(body[1..]));
      Some(if body[0] == '-' then -(magnitude as int) else magnitude)
    else if AllDigits(body) then
      Some(DigitsValue(body))
    else
      None
  }

  /** Python 2 `long(text)` in base 10: whitespace, an optional sign,
      whitespace, at least one digit, an optional `L` or `l`, whitespace;
      anything else is a ValueError naming the text. */
  function ParseLong(text: string): (r: Result<int, Failure>)
    ensures r.Err? ==> r.error == NotANumber(text)
  {
    match SignedValue(StripSuffix(TrimRight(TrimLeft(text))))
    case Some(v) => Ok(v)
    case None => Err(NotANumber(text))
  }

  /** Decimal rendering of a natural number: the reference `ParseLong` is checked against. */
  function Decimal(n: nat): (r: string)
    ensures AllDigits(r)
  {
    if n < 10 then ['0' + n as char] else Decimal(n / 10) + ['0' + (n % 10) as char]
  }

  lemma {:induction false} DecimalDigitsValue(n: nat)
    ensures DigitsValue(Decimal(n)) == n
  {
    var r := Decimal(n);
    if n >= 10 {
      DecimalDigitsValue(n / 10);
      assert r[..|r| - 1] == Decimal(n / 10);
    }
  }

  lemma {:induction false} TrimLeftSpaces(ws: string, s: string)
    requires AllSpace(ws) && (s == [] || !IsSpace(s[0]))
    ensures TrimLeft(ws + s) == s
  {
    if ws != [] {
      assert (ws + s)[1..] == ws[1..] + s;
      TrimLeftSpaces(ws[1..], s);
    }
  }

  lemma {:induction false} TrimRightSpaces(s: string, ws: string)
    requires AllSpace(ws) && (s == [] || !IsSpace(s[|s| - 1]))
    ensures TrimRight(s + ws) == s
  {
    if ws != [] {
      assert (s + ws)[..|s + ws| - 1] == s + ws[..|ws| - 1];
      TrimRightSpaces(s, ws[..|ws| - 1]);
    }
  }

  /** Whitespace around a text is no part of what `long()` reads. */
  lemma {:induction false} ParseLongIgnoresPadding(lead: string, core: string, trail: string)
    requires AllSpace(lead) && AllSpace(trail)
    requires core != [] && !IsSpace(core[0]) && !IsSpace(core[|core| - 1])
    ensures ParseLong(lead + core + trail).Ok? == ParseLong(core).Ok?
    ensures ParseLong(core).Ok? ==> ParseLong(lead + core + trail) == ParseLong(core)
  {
    assert lead + core + trail == lead + (core + trail);
    TrimLeftSpaces(lead, core + trail);
    TrimRightSpaces(core, trail);
    assert [] + core == core && core + [] == core;
    TrimLeftSpaces([], core);
    TrimRightSpaces(core, []);
  }

  lemma {:induction false} UnsignedNumeral(digits: string, suffix: string)
    requires AllDigits(digits) && suffix in {"", "L", "l"}
    ensures ParseLong(digits + suffix) == Ok(DigitsValue(digits))
  {
    var core := digits + suffix;
    assert [] + core == core && core + [] == core;
    TrimLeftSpaces([], core);
    TrimRightSpaces(core, []);
    assert StripSuffix(core) == digits;
  }

  lemma {:induction false} DropSign(c: char, rest: string)
    ensures ([c] + rest)[1..] == rest
  {
  }

  lemma {:induction false} SignedBody(sign: char, gap: string, digits: string)
    requires AllSpace(gap) && AllDigits(digits) && (sign == '+' || sign == '-')
    ensures SignedValue([sign] + gap + digits) ==
            Some(if sign == '-' then -(DigitsValue(digits) as int) else DigitsValue(digits))
  {
    var body := [sign] + (gap + digits);
    assert [sign] + gap + digits == body;
    DropSign(sign, gap + digits);
    TrimLeftSpaces(gap, digits);
  }

  lemma {:induction false} SignedNumeral(sign: char, gap: string, digits: string, suffix: string)
    requires AllSpace(gap) && AllDigits(digits)
    requires (sign == '+' || sign == '-') && suffix in {"", "L", "l"}
    ensures ParseLong([sign] + gap + digits + suffix) ==
            Ok(if sign == '-' then -(DigitsValue(digits) as int) else DigitsValue(digits))
  {
    var body := [sign] + gap + digits;
    var core := body + suffix;
    assert [] + core == core && core + [] == core;
    TrimLeftSpaces([], core);
    TrimRightSpaces(core, []);
    assert StripSuffix(core) == body;
    SignedBody(sign, gap, digits);
  }

  lemma {:induction false} PaddedUnsigned(lead: string, digits: string, suffix: string, trail: string)
    requires AllSpace(lead) && AllSpace(trail) && AllDigits(digits) && suffix in {"", "L", "l"}
    ensures ParseLong(lead + digits + suffix + trail) == Ok(DigitsValue(digits))
  {
    var core := digits + suffix;
    assert lead + digits + suffix + trail == lead + core + trail;
    UnsignedNumeral(digits, suffix);
    ParseLongIgnoresPadding(lead, core, trail);
  }

  lemma {:induction false} PaddedSigned(lead: string, sign: char, gap: string, digits: string, suffix: string, trail: string)
    requires AllSpace(lead) && AllSpace(gap) && AllSpace(trail) && AllDigits(digits)
    requires (sign == '+' || sign == '-') && suffix in {"", "L", "l"}
    ensures ParseLong(lead + [sign] + gap + digits + suffix + trail) ==
            Ok(if sign == '-' then -(DigitsValue(digits) as int) else DigitsValue(digits))
  {
    var core := [sign] + gap + digits + suffix;
    assert lead + [sign] + gap + digits + suffix + trail == lead + core + trail;
    SignedNumeral(sign, gap, digits, suffix);
    ParseLongIgnoresPadding(lead, core, trail);
  }

  /** Every base-10 numeral `long()` accepts reads back as its value:
      whitespace around it, a sign with whitespace after it, leading zeros
      and an `L` suffix change nothing. */
  lemma {:induction false} ParseLongNumeral(lead: string, sign: string, gap: string, digits: string, suffix: string, trail: string)
    requires AllSpace(lead) && AllSpace(gap) && AllSpace(trail) && AllDigits(digits)
    requires sign in {"", "+", "-"} && suffix in {"", "L", "l"}
    ensures ParseLong(lead + sign + gap + digits + suffix + trail) ==
            Ok(if sign == "-" then -(DigitsValue(digits) as int) else DigitsValue(digits))
  {
    if sign == "" {
      assert lead + sign + gap + digits + suffix + trail == (lead + gap) + digits + suffix + trail;
      assert AllSpace(lead + gap);
      PaddedUnsigned(lead + gap, digits, suffix, trail);
    } else {
      assert sign == [sign[0]];
      PaddedSigned(lead, sign[0], gap, digits, suffix, trail);
    }
  }

  /** Reading back a rendered port number gives the number. */
  lemma {:induction false} ParseLongDecimal(n: nat)
    ensures ParseLong(Decimal(n)) == Ok(n)
  {
    DecimalDigitsValue(n);
    UnsignedNumeral(Decimal(n), "");
    assert Decimal(n) + "" == Decimal(n);
  }

  /** A character a numeral may contain. */
  predicate NumeralChar(c: char) {
    IsSpace(c) || IsDigit(c) || c in "+-Ll"
  }

  lemma {:induction false} TrimLeftKeeps(s: string)
    ensures forall c :: c in TrimLeft(s) ==> c in s
    ensures forall c :: c in s ==> IsSpace(c) || c in TrimLeft(s)
  {
    if s != [] && IsSpace(s[0]) {
      TrimLeftKeeps(s[1..]);
      assert forall c :: c in s ==> c == s[0] || c in s[1..];
    }
  }

  lemma {:induction false} TrimRightKeeps(s: string)
    ensures forall c :: c in TrimRight(s) ==> c in s
    ensures forall c :: c in s ==> IsSpace(c) || c in TrimRight(s)
  {
    if s != [] && IsSpace(s[|s| - 1]) {
      TrimRightKeeps(s[..|s| - 1]);
      assert forall c :: c in s ==> c == s[|s| - 1] || c in s[..|s| - 1];
    }
  }

  lemma {:induction false} SignedValueChars(body: string)
    requires SignedValue(body).Some?
    ensures forall c :: c in body ==> NumeralChar(c)
    ensures exists c :: c in body && IsDigit(c)
  {
    if body != [] && (body[0] == '+' || body[0] == '-') && AllDigits(TrimLeft(body[1..])) {
      var digits := TrimLeft(body[1..]);
      TrimLeftKeeps(body[1..]);
      assert forall c :: c in body ==> c == body[0] || c in body[1..];
      assert forall c :: c in digits ==> IsDigit(c);
      assert digits[0] in body[1..];
    } else {
      assert body[0] in body;
    }
  }

  lemma {:induction false} StripSuffixKeeps(t: string)
    ensures forall c :: c in StripSuffix(t) ==> c in t
    ensures forall c :: c in t ==> c in StripSuffix(t) || c == 'L' || c == 'l'
  {
    if t != [] && (t[|t| - 1] == 'L' || t[|t| - 1] == 'l') {
      assert t == t[..|t| - 1] + [t[|t| - 1]];
    }
  }

  /** `long()` accepts nothing but numerals: a text it reads holds a digit,
      and every character of it is whitespace, a digit, a sign or the suffix. */
  lemma {:induction false} ParseLongAcceptsOnlyNumerals(text: string)
    requires ParseLong(text).Ok?
    ensures exists c :: c in text && IsDigit(c)
    ensures forall c :: c in text ==> NumeralChar(c)
  {
    var u := TrimLeft(text);
    var t := TrimRight(u);
    var body := StripSuffix(t);
    assert SignedValue(body).Some?;
    SignedValueChars(body);
    StripSuffixKeeps(t);
    TrimRightKeeps(u);
    TrimLeftKeeps(text);
  }
}
