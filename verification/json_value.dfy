/** The value tree `json.loads` produces, as a closed datatype following
    sections 3 to 7 of RFC 8259. Objects keep their members in the order
    given; integers are exact, and every other number is carried as the
    text Python's `repr` gives the float it denotes. */
module JsonValue {
  import opened Decimal

  datatype Json =
    | Null
    | Bool(b: bool)
    | Int(i: int)
    | Float(text: string)
    | Str(s: string)
    | Array(items: seq<Json>)
    | Object(members: seq<Member>)

  datatype Member = Member(key: string, value: Json)

  predicate IsScalar(v: Json) {
    !v.Array? && !v.Object?
  }

  /** A scalar, `[]` or `{}`: a value whose rendering has no inner layout. */
  predicate IsAtomic(v: Json) {
    IsScalar(v) || v == Array([]) || v == Object([])
  }

  function Keys(ms: seq<Member>): (ks: seq<string>)
    ensures |ks| == |ms|
    ensures forall i :: 0 <= i < |ms| ==> ks[i] == ms[i].key
  {
    if ms == [] then [] else [ms[0].key] + Keys(ms[1..])
  }

  predicate UniqueKeys(ms: seq<Member>) {
    forall i, j :: 0 <= i < j < |ms| ==> ms[i].key != ms[j].key
  }

  /** Exponent part of a number: `e` or `E`, an optional sign, digits. */
  predicate IsExponent(s: string) {
    |s| >= 2 && (s[0] == 'e' || s[0] == 'E') &&
    var d := if s[1] == '+' || s[1] == '-' then s[2..] else s[1..];
    |d| > 0 && AllDigits(d)
  }

  /** What may follow the integer part: an optional fraction, then an
      optional exponent. */
  predicate IsFractionExponent(s: string) {
    if |s| > 0 && s[0] == '.' then
      var n := DigitRun(s[1..]);
      n > 0 && (1 + n == |s| || IsExponent(s[1 + n..]))
    else
      s == [] || IsExponent(s)
  }

  /** The number grammar of section 6 of RFC 8259. */
  predicate IsNumberText(t: string) {
    var a := if |t| > 0 && t[0] == '-' then t[1..] else t;
    var n := DigitRun(a);
    IsCanonicalDigits(a[..n]) && IsFractionExponent(a[n..])
  }

  /** Text of a non-integer number: it has a fraction or an exponent. This
      is the shape of `repr` of every finite Python float. */
  predicate IsFloatText(t: string) {
    IsNumberText(t) && exists k :: 0 <= k < |t| && (t[k] == '.' || t[k] == 'e' || t[k] == 'E')
  }

  /** What `json.loads` can return: object keys are unique (Python's dict
      keeps one entry per key) and float texts follow the number grammar. */
  predicate Valid(v: Json) {
    match v
    case Float(t) => IsFloatText(t)
    case Array(items) => forall i :: 0 <= i < |items| ==> Valid(items[i])
    case Object(ms) => UniqueKeys(ms) && forall i :: 0 <= i < |ms| ==> Valid(ms[i].value)
    case _ => true
  }

  predicate IsNumberChar(c: char) {
    IsDigit(c) || c == '-' || c == '+' || c == '.' || c == 'e' || c == 'E'
  }

  predicate NumberChars(s: string) {
    forall k :: 0 <= k < |s| ==> IsNumberChar(s[k])
  }

  /** `str(int)` is made of number characters: an optional minus sign
      followed by at least one digit. */
  lemma IntTextShape(i: int)
    ensures var t := IntToString(i);
      |t| > 0 && (t[0] == '-' || IsDigit(t[0])) && (t[0] == '-' ==> |t| >= 2 && IsDigit(t[1])) &&
      NumberChars(t)
  {
  }

  lemma NumberCharsAppend(x: string, y: string)
    requires NumberChars(x) && NumberChars(y)
    ensures NumberChars(x + y)
  {
    forall k | 0 <= k < |x + y|
      ensures IsNumberChar((x + y)[k])
    {
      if k >= |x| {
        assert (x + y)[k] == y[k - |x|];
      }
    }
  }

  lemma LastOfAppendDigit(x: string, y: string)
    requires (y == [] && x != [] && IsDigit(x[|x| - 1])) || (y != [] && IsDigit(y[|y| - 1]))
    ensures IsDigit((x + y)[|x + y| - 1])
  {
    if y == [] {
      assert x + y == x;
    }
  }

  /** A number text is drawn from the number alphabet and ends in a digit. */
  lemma NumberTextShape(t: string)
    requires IsNumberText(t)
    ensures |t| > 0 && IsDigit(t[|t| - 1])
    ensures forall k :: 0 <= k < |t| ==> IsNumberChar(t[k])
  {
    if |t| > 0 && t[0] == '-' {
      var a := t[1..];
      UnsignedShape(a, DigitRun(a));
      assert t == ['-'] + a;
      NumberCharsAppend(['-'], a);
      LastOfAppendDigit(['-'], a);
    } else {
      UnsignedShape(t, DigitRun(t));
    }
  }

  /** The part of a number text after its sign. */
  lemma UnsignedShape(a: string, n: nat)
    requires n <= |a| && IsCanonicalDigits(a[..n]) && IsFractionExponent(a[n..])
    ensures |a| > 0 && IsDigit(a[|a| - 1]) && NumberChars(a)
  {
    TakeDrop(a, n);
    DigitsThenFraction(a[..n], a[n..]);
  }

  lemma TakeDrop(a: string, n: nat)
    requires n <= |a|
    ensures a[..n] + a[n..] == a
  {
  }

  lemma DigitsThenFraction(d: string, s: string)
    requires IsCanonicalDigits(d) && IsFractionExponent(s)
    ensures |d + s| > 0 && IsDigit((d + s)[|d + s| - 1]) && NumberChars(d + s)
  {
    DigitsAreNumberChars(d);
    FractionExponentShape(s);
    NumberCharsAppend(d, s);
    LastOfAppendDigit(d, s);
  }

  lemma DigitsAreNumberChars(d: string)
    requires AllDigits(d)
    ensures NumberChars(d)
  {
  }

  lemma FractionExponentShape(s: string)
    requires IsFractionExponent(s)
    ensures s != [] ==> IsDigit(s[|s| - 1])
    ensures NumberChars(s)
  {
    if |s| > 0 && s[0] == '.' {
      var m := DigitRun(s[1..]);
      var d := s[1..][..m];
      var e := s[1 + m..];
      assert s == ['.'] + d + e;
      assert |d| > 0 && IsDigit(d[|d| - 1]);
      DigitsAreNumberChars(d);
      if e != [] {
        ExponentShape(e);
      } else {
        assert e == [];
      }
      LastOfAppendDigit(['.'] + d, e);
      NumberCharsAppend(['.'], d);
      NumberCharsAppend(['.'] + d, e);
    } else if s != [] {
      ExponentShape(s);
    }
  }

  lemma ExponentShape(s: string)
    requires IsExponent(s)
    ensures IsDigit(s[|s| - 1])
    ensures NumberChars(s)
  {
    var d := if s[1] == '+' || s[1] == '-' then s[2..] else s[1..];
    assert s[|s| - 1] == d[|d| - 1];
  }
}
