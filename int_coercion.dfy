/**
 * Python's `int(x)` on the values an item identifier can be, as the bulk
 * translator applies it to every identifier. A string is read as a base-10
 * literal: surrounding ASCII whitespace, an optional sign, then digits in which
 * single underscores may separate two digits, and no more digits than the
 * interpreter's limit on integer string conversion allows. A bool gives 0 or 1,
 * a float is truncated toward zero, None, lists and dicts are refused.
 */
module IntCoercion {
  import opened Wrappers
  import opened Values

  /** The two exceptions `int()` raises on the values modelled here. */
  datatype CoercionError = TypeError | ValueError

  /** Space, tab, line feed, vertical tab, form feed, carriage return. */
  predicate IsSpace(c: char) {
    c == ' ' || '\t' <= c <= '\r'
  }

  predicate IsDigit(c: char) {
    '0' <= c <= '9'
  }

  function DigitValue(c: char): (d: nat)
    requires IsDigit(c)
    ensures d < 10
  {
    c as int - '0' as int
  }

  function DigitChar(d: nat): (c: char)
    requires d < 10
    ensures IsDigit(c) && DigitValue(c) == d
  {
    ('0' as int + d) as char
  }

  /** Drops leading whitespace. */
  function TrimLeft(s: string): (r: string)
    ensures |r| <= |s| && r == s[|s| - |r|..]
    ensures r == [] || !IsSpace(r[0])
    ensures forall i :: 0 <= i < |s| - |r| ==> IsSpace(s[i])
  {
    if |s| > 0 && IsSpace(s[0]) then TrimLeft(s[1..]) else s
  }

  /** Drops trailing whitespace. */
  function TrimRight(s: string): (r: string)
    ensures |r| <= |s| && r == s[..|r|]
    ensures r == [] || !IsSpace(r[|r| - 1])
    ensures forall i :: |r| <= i < |s| ==> IsSpace(s[i])
  {
    if |s| > 0 && IsSpace(s[|s| - 1]) then TrimRight(s[..|s| - 1]) else s
  }

  function Strip(s: string): (r: string) {
    TrimRight(TrimLeft(s))
  }

  /** Digits and underscores only. */
  predicate IsDigitsOrUnderscores(s: string) {
    forall i :: 0 <= i < |s| ==> IsDigit(s[i]) || s[i] == '_'
  }

  /** The number of digits in `s`; signs and underscores do not count. */
  function DigitCount(s: string): (k: nat)
    ensures k <= |s|
  {
    if |s| == 0 then 0
    else DigitCount(s[..|s| - 1]) + (if IsDigit(s[|s| - 1]) then 1 else 0)
  }

  /**
   * CPython's default limit on the digits of a decimal string that `int()` reads
   * and `str()` writes (`sys.get_int_max_str_digits()`); 0 would mean no limit.
   */
  const MaxStrDigits: nat := 4300

  /** The digits of `s` are within the conversion limit. */
  predicate WithinDigitLimit(s: string) {
    MaxStrDigits == 0 || DigitCount(s) <= MaxStrDigits
  }

  /**
   * The body of a base-10 literal: it starts and ends with a digit and every
   * underscore is followed by a digit (so no two underscores are adjacent).
   */
  predicate IsDigitGroups(s: string) {
    && |s| > 0
    && IsDigit(s[0])
    && IsDigit(s[|s| - 1])
    && IsDigitsOrUnderscores(s)
    && forall i :: 0 <= i < |s| - 1 && s[i] == '_' ==> IsDigit(s[i + 1])
  }

  /** The number the digits of `s` denote, underscores skipped. */
  function DigitsValue(s: string): (n: nat)
    requires IsDigitsOrUnderscores(s)
  {
    if |s| == 0 then 0
    else if s[|s| - 1] == '_' then DigitsValue(s[..|s| - 1])
    else DigitsValue(s[..|s| - 1]) * 10 + DigitValue(s[|s| - 1])
  }

  /**
   * A base-10 literal with no surrounding whitespace: an optional sign, then digit
   * groups holding no more digits than the limit allows.
   */
  function ParseLiteral(t: string): (r: Option<int>) {
    if |t| > 0 && (t[0] == '+' || t[0] == '-') then
      if IsDigitGroups(t[1..]) && WithinDigitLimit(t[1..]) then
        var n: int := DigitsValue(t[1..]);
        Some(if t[0] == '-' then -n else n)
      else None
    else if IsDigitGroups(t) && WithinDigitLimit(t) then Some(DigitsValue(t))
    else None
  }

  /** `int(s)` for a string `s`; None where Python raises ValueError. */
  function ParseInt(s: string): (r: Option<int>) {
    ParseLiteral(Strip(s))
  }

  /** The decimal rendering of a natural number, as Python's `str` gives it. */
  function ShowNat(n: nat): (s: string)
    ensures |s| > 0 && forall i :: 0 <= i < |s| ==> IsDigit(s[i])
  {
    if n < 10 then [DigitChar(n)] else ShowNat(n / 10) + [DigitChar(n % 10)]
  }

  /**
   * The decimal rendering of an integer, as Python's `str` gives it for numbers
   * within the digit limit; past the limit Python's `str` raises, this rendering
   * does not (it is the reference the reader is checked against).
   */
  function ShowInt(n: int): (s: string)
    ensures |s| > 0
  {
    if n < 0 then "-" + ShowNat(-n) else ShowNat(n)
  }

  /** Python's `int(x)` on a finite float: truncation toward zero. */
  function TruncateTowardZero(x: real): (t: int)
    ensures 0.0 <= x ==> 0 <= t && t as real <= x < t as real + 1.0
    ensures x < 0.0 ==> t <= 0 && t as real - 1.0 < x <= t as real
  {
    if x >= 0.0 then x.Floor else -((-x).Floor)
  }

  /** The absolute value, whose rendering is the digits of `ShowInt`. */
  function Magnitude(n: int): (m: nat)
    ensures m == n || m == -n
  {
    if n < 0 then -n else n
  }

  /** 10 to the power k. */
  function Pow10(k: nat): (p: nat)
    ensures p > 0
  {
    if k == 0 then 1 else 10 * Pow10(k - 1)
  }

  /** Python's `int(v)`. */
  function IntOf(v: Value): (r: Result<int, CoercionError>) {
    match v
    case Null => Failure(TypeError)
    case Bool(b) => Success(if b then 1 else 0)
    case Int(n) => Success(n)
    case Float(x) => Success(TruncateTowardZero(x))
    case Str(s) =>
      (match ParseInt(s)
       case Some(n) => Success(n)
       case None => Failure(ValueError))
    case List(_) => Failure(TypeError)
    case Dict(_) => Failure(TypeError)
  }

  lemma {:induction false} DigitsValueShowNat(n: nat)
    ensures IsDigitsOrUnderscores(ShowNat(n)) && DigitsValue(ShowNat(n)) == n
  {
    var s := ShowNat(n);
    if n >= 10 {
      DigitsValueShowNat(n / 10);
      assert s[..|s| - 1] == ShowNat(n / 10);
    }
  }

  lemma {:induction false} DigitCountShowNat(n: nat)
    ensures DigitCount(ShowNat(n)) == |ShowNat(n)|
  {
    var s := ShowNat(n);
    if n >= 10 {
      DigitCountShowNat(n / 10);
      assert s[..|s| - 1] == ShowNat(n / 10);
    }
  }

  /** 10^k is written with k + 1 digits. */
  lemma {:induction false} ShowPow10Length(k: nat)
    ensures |ShowNat(Pow10(k))| == k + 1
  {
    if k > 0 {
      ShowPow10Length(k - 1);
      assert Pow10(k) / 10 == Pow10(k - 1);
    }
  }

  lemma ShowNatIsDigitGroups(n: nat)
    ensures IsDigitGroups(ShowNat(n))
  {
  }

  /** A string with no whitespace at either end is read as it stands. */
  lemma ParseTrimmed(s: string)
    requires |s| > 0 && !IsSpace(s[0]) && !IsSpace(s[|s| - 1])
    ensures Strip(s) == s && ParseInt(s) == ParseLiteral(s)
  {
  }

  /**
   * Reading back the decimal rendering of an integer gives that integer when its
   * digits are within the limit, and raises ValueError when they are not.
   */
  lemma ParseShowRoundTrip(n: int)
    ensures ParseInt(ShowInt(n)) ==
            if MaxStrDigits == 0 || |ShowNat(Magnitude(n))| <= MaxStrDigits then Some(n) else None
  {
    var s := ShowInt(n);
    var m: nat := Magnitude(n);
    var d := ShowNat(m);
    DigitsValueShowNat(m);
    DigitCountShowNat(m);
    ShowNatIsDigitGroups(m);
    ParseTrimmed(s);
    var within := WithinDigitLimit(d);
    if n < 0 {
      assert s[0] == '-' && s[1..] == d;
      assert ParseLiteral(s) == if within then Some(n) else None;
    } else {
      assert s == d && IsDigit(s[0]);
      assert ParseLiteral(s) == if within then Some(n) else None;
    }
  }

  lemma {:induction false} TrimLeftSkipsSpaces(pre: string, s: string)
    requires forall i :: 0 <= i < |pre| ==> IsSpace(pre[i])
    ensures TrimLeft(pre + s) == TrimLeft(s)
  {
    if |pre| > 0 {
      assert (pre + s)[0] == pre[0];
      assert (pre + s)[1..] == pre[1..] + s;
      TrimLeftSkipsSpaces(pre[1..], s);
    } else {
      assert pre + s == s;
    }
  }

  lemma {:induction false} TrimRightSkipsSpaces(s: string, post: string)
    requires forall i :: 0 <= i < |post| ==> IsSpace(post[i])
    ensures TrimRight(s + post) == TrimRight(s)
  {
    if |post| > 0 {
      var p := post[..|post| - 1];
      assert (s + post)[|s + post| - 1] == post[|post| - 1];
      assert (s + post)[..|s + post| - 1] == s + p;
      TrimRightSkipsSpaces(s, p);
    } else {
      assert s + post == s;
    }
  }

  lemma {:induction false} TrimLeftAppend(s: string, post: string)
    ensures TrimLeft(s + post) == if TrimLeft(s) == [] then TrimLeft(post) else TrimLeft(s) + post
  {
    if |s| == 0 {
      assert s + post == post;
    } else if IsSpace(s[0]) {
      assert (s + post)[0] == s[0];
      assert (s + post)[1..] == s[1..] + post;
      TrimLeftAppend(s[1..], post);
    } else {
      assert (s + post)[0] == s[0];
    }
  }

  lemma StripIgnoresSpaces(pre: string, s: string, post: string)
    requires forall i :: 0 <= i < |pre| ==> IsSpace(pre[i])
    requires forall i :: 0 <= i < |post| ==> IsSpace(post[i])
    ensures Strip(pre + s + post) == Strip(s)
  {
    assert pre + s + post == pre + (s + post);
    TrimLeftSkipsSpaces(pre, s + post);
    TrimLeftAppend(s, post);
    if TrimLeft(s) == [] {
      assert TrimLeft(post) == [] by {
        assert post == [] + post;
        TrimLeftSkipsSpaces(post, []);
      }
    } else {
      TrimRightSkipsSpaces(TrimLeft(s), post);
    }
  }

  /** Whitespace around a literal never changes what `int()` makes of it. */
  lemma ParseIgnoresSurroundingSpace(pre: string, s: string, post: string)
    requires forall i :: 0 <= i < |pre| ==> IsSpace(pre[i])
    requires forall i :: 0 <= i < |post| ==> IsSpace(post[i])
    ensures ParseInt(pre + s + post) == ParseInt(s)
  {
    StripIgnoresSpaces(pre, s, post);
  }

  /** What the literal reader makes of a few literals with no surrounding whitespace. */
  lemma ParseLiteralExamples()
    ensures ParseLiteral("-7") == Some(-7)
    ensures ParseLiteral("+07") == Some(7)
    ensures ParseLiteral("1_0") == Some(10)
    ensures ParseLiteral("") == None
    ensures ParseLiteral("1__0") == None
    ensures ParseLiteral("_1") == None
    ensures ParseLiteral("1_") == None
    ensures ParseLiteral("- 1") == None
    ensures ParseLiteral("3.0") == None
    ensures ParseLiteral("0x1A") == None
  {
    assert "-7"[1..] == "7";
    assert "+07"[1..] == "07" && "07"[..1] == "0";
    assert DigitsValue("07") == 7;
    assert "1_0"[..2] == "1_" && "1_"[..1] == "1";
    assert DigitsValue("1_0") == 10;
    assert "1__0"[1] == '_' && "1__0"[2] == '_';
    assert "- 1"[1..][0] == ' ';
    assert "3.0"[1] == '.';
    assert "0x1A"[1] == 'x';
  }

  /** A string of whitespace only, the empty string included, is refused. */
  lemma BlankStringsRefused(s: string)
    requires forall i :: 0 <= i < |s| ==> IsSpace(s[i])
    ensures ParseInt(s) == None
  {
    assert s + "" + "" == s;
    StripIgnoresSpaces(s, "", "");
  }

  /**
   * One digit past the limit is refused: 10^MaxStrDigits is written with
   * MaxStrDigits + 1 digits, and reading that string raises ValueError.
   */
  lemma DigitLimitRefuses()
    ensures MaxStrDigits > 0 ==> ParseInt(ShowInt(Pow10(MaxStrDigits))) == None
  {
    ShowPow10Length(MaxStrDigits);
    ParseShowRoundTrip(Pow10(MaxStrDigits));
  }

  /**
   * `int()` of the decimal rendering of an integer is that integer, or ValueError
   * when the rendering has more digits than the limit.
   */
  lemma IntOfDecimalString(n: int)
    ensures IntOf(Str(ShowInt(n))) ==
            if MaxStrDigits == 0 || |ShowNat(Magnitude(n))| <= MaxStrDigits then Success(n)
            else Failure(ValueError)
  {
    var s := ShowInt(n);
    ParseShowRoundTrip(n);
    var p := ParseInt(s);
    if p.Some? {
      assert IntOf(Str(s)) == Success(p.value);
    } else {
      assert IntOf(Str(s)) == Failure(ValueError);
    }
  }

  /** `int()` is idempotent: coercing a coerced identifier changes nothing. */
  lemma IntOfIdempotent(v: Value)
    requires IntOf(v).Success?
    ensures IntOf(Int(IntOf(v).value)) == IntOf(v)
  {
  }
}
