/** The JavaScript values the backend handles: request bodies, query
    parameters and Firestore documents. Objects are maps from key to value
    (a missing key reads as `undefined`), and numbers are exact reals; the
    only numeric behaviour the handlers rely on is truthiness, comparison and
    `parseInt`. */
module Js {
  import opened Wrappers
  import opened Text

  datatype JsValue =
    | Undefined
    | Null
    | NaN
    | Bool(b: bool)
    | Num(n: real)
    | Str(s: string)
    | Arr(items: seq<JsValue>)
    | Obj(fields: map<string, JsValue>)

  /** A plain object, such as a request body or a document's data. */
  type Doc = map<string, JsValue>

  /** JavaScript truthiness: `undefined`, `null`, `NaN`, `false`, `0` and the
      empty string are falsy; everything else, every object included, is truthy. */
  predicate Truthy(v: JsValue) {
    match v
    case Undefined => false
    case Null => false
    case NaN => false
    case Bool(b) => b
    case Num(n) => n != 0.0
    case Str(s) => s != []
    case Arr(_) => true
    case Obj(_) => true
  }

  /** `a || b`. */
  function Or(a: JsValue, b: JsValue): (r: JsValue)
    ensures Truthy(a) ==> r == a
    ensures !Truthy(a) ==> r == b
  {
    if Truthy(a) then a else b
  }

  /** `obj.key`. */
  function Get(d: Doc, key: string): (v: JsValue)
    ensures key !in d ==> v == Undefined
    ensures key in d ==> v == d[key]
  {
    if key in d then d[key] else Undefined
  }

  /** An array of plain objects. */
  function Objects(ds: seq<Doc>): (r: JsValue)
    ensures r.Arr? && |r.items| == |ds|
    ensures forall i :: 0 <= i < |ds| ==> r.items[i] == Obj(ds[i])
  {
    Arr(seq(|ds|, i requires 0 <= i < |ds| => Obj(ds[i])))
  }

  /** `{ ...d }` with `delete copy.key`. */
  function Without(d: Doc, key: string): (r: Doc)
    ensures key !in r
    ensures forall k :: k in r <==> k in d && k != key
    ensures forall k :: k in r ==> r[k] == d[k]
  {
    d - {key}
  }

  predicate IsDigit(c: char) {
    '0' <= c <= '9'
  }

  /** The longest prefix of decimal digits. */
  function DigitPrefix(s: string): (r: string)
    ensures |r| <= |s| && r == s[..|r|]
    ensures forall i :: 0 <= i < |r| ==> IsDigit(r[i])
    ensures |r| < |s| ==> !IsDigit(s[|r|])
  {
    if s != [] && IsDigit(s[0]) then [s[0]] + DigitPrefix(s[1..]) else []
  }

  /** The value of a string of decimal digits. */
  function DigitsValue(ds: string): nat
    requires forall i :: 0 <= i < |ds| ==> IsDigit(ds[i])
  {
    if ds == [] then 0
    else
      assert IsDigit(ds[|ds| - 1]);
      DigitsValue(ds[..|ds| - 1]) * 10 + ((ds[|ds| - 1] as int) - ('0' as int))
  }

  predicate IsHexDigit(c: char) {
    IsDigit(c) || 'a' <= c <= 'f' || 'A' <= c <= 'F'
  }

  function HexDigitValue(c: char): (v: nat)
    requires IsHexDigit(c)
    ensures v < 16
  {
    if IsDigit(c) then (c as int) - ('0' as int)
    else if 'a' <= c <= 'f' then (c as int) - ('a' as int) + 10
    else (c as int) - ('A' as int) + 10
  }

  /** The longest prefix of hexadecimal digits. */
  function HexPrefix(s: string): (r: string)
    ensures |r| <= |s| && r == s[..|r|]
    ensures forall i :: 0 <= i < |r| ==> IsHexDigit(r[i])
    ensures |r| < |s| ==> !IsHexDigit(s[|r|])
  {
    if s != [] && IsHexDigit(s[0]) then [s[0]] + HexPrefix(s[1..]) else []
  }

  /** The value of a string of hexadecimal digits. */
  function HexValue(hs: string): nat
    requires forall i :: 0 <= i < |hs| ==> IsHexDigit(hs[i])
  {
    if hs == [] then 0
    else HexValue(hs[..|hs| - 1]) * 16 + HexDigitValue(hs[|hs| - 1])
  }

  /** Without a radix, `parseInt` reads text starting `0x` or `0X` in base 16. */
  predicate HasHexPrefix(u: string) {
    |u| >= 2 && u[0] == '0' && (u[1] == 'x' || u[1] == 'X')
  }

  /** `parseInt(s)` without a radix: leading whitespace, an optional sign,
      then the magnitude; `None` (NaN) when there is none. */
  function ParseInt(s: string): Option<int> {
    var t := TrimStart(s);
    match Magnitude(Unsigned(t))
    case None => None
    case Some(m) => Some(if t != [] && t[0] == '-' then -m else m)
  }

  /** The magnitude in base 16 after a `0x` prefix, otherwise in base 10. */
  function Magnitude(u: string): Option<int> {
    if HasHexPrefix(u) then HexMagnitude(u[2..]) else DecimalMagnitude(u)
  }

  /** The value of the longest run of hexadecimal digits; `None` when empty. */
  function HexMagnitude(v: string): Option<int> {
    var hs := HexPrefix(v);
    if hs == [] then None else Some(HexValue(hs))
  }

  /** The value of the longest run of decimal digits; `None` when empty. */
  function DecimalMagnitude(u: string): Option<int> {
    var ds := DigitPrefix(u);
    if ds == [] then None else Some(DigitsValue(ds))
  }

  /** Drops one leading sign. */
  function Unsigned(t: string): string {
    if t != [] && (t[0] == '-' || t[0] == '+') then t[1..] else t
  }

  /** `parseInt` as a JavaScript value: a number, or NaN. */
  function ParseIntValue(s: string): (v: JsValue)
    ensures v.NaN? <==> ParseInt(s).None?
    ensures v.Num? ==> v.n == ParseInt(s).value as real
  {
    match ParseInt(s)
    case None => NaN
    case Some(n) => Num(n as real)
  }

  /** The digits of a counter read back as the counter. */
  lemma {:induction false} DigitsValueOfNatToString(n: nat)
    ensures forall i :: 0 <= i < |NatToString(n)| ==> IsDigit(NatToString(n)[i])
    ensures DigitsValue(NatToString(n)) == n
  {
    var s := NatToString(n);
    if n >= 10 {
      DigitsValueOfNatToString(n / 10);
      assert s[..|s| - 1] == NatToString(n / 10);
    }
  }

  /** Round trip: `parseInt` reads back the decimal text of any counter. */
  lemma ParseIntOfNatToString(n: nat)
    ensures ParseInt(NatToString(n)) == Some(n)
  {
    DigitsValueOfNatToString(n);
    ParseIntOfDigits(NatToString(n));
  }

  /** Text made of decimal digits parses to its decimal value. */
  lemma ParseIntOfDigits(s: string)
    requires s != [] && forall i :: 0 <= i < |s| ==> IsDigit(s[i])
    ensures ParseInt(s) == Some(DigitsValue(s))
  {
    assert !IsWhitespace(s[0]) && s[0] != '-' && s[0] != '+' by { assert IsDigit(s[0]); }
    UnsignedText(s);
    DecimalText(s);
  }

  /** Text that starts with neither whitespace nor a sign parses to its magnitude. */
  lemma UnsignedText(s: string)
    requires s != [] && !IsWhitespace(s[0]) && s[0] != '-' && s[0] != '+'
    ensures ParseInt(s) == Magnitude(s)
  {
    assert TrimStart(s) == s;
    assert Unsigned(s) == s;
  }

  /** Decimal digits with no `0x` prefix are their own magnitude. */
  lemma DecimalText(s: string)
    requires s != [] && forall i :: 0 <= i < |s| ==> IsDigit(s[i])
    ensures Magnitude(s) == Some(DigitsValue(s))
  {
    assert !HasHexPrefix(s) by {
      if |s| >= 2 { assert IsDigit(s[1]); }
    }
    DigitPrefixOfDigits(s);
  }

  /** A string of digits is its own digit prefix. */
  lemma {:induction false} DigitPrefixOfDigits(s: string)
    requires forall i :: 0 <= i < |s| ==> IsDigit(s[i])
    ensures DigitPrefix(s) == s
  {
    if s != [] {
      DigitPrefixOfDigits(s[1..]);
    }
  }

  /** Text that does not start with a digit, a sign or whitespace parses to NaN. */
  lemma ParseIntNaN(s: string)
    requires s == [] || (!IsDigit(s[0]) && s[0] != '-' && s[0] != '+' && !IsWhitespace(s[0]))
    ensures ParseInt(s) == None
  {
    assert TrimStart(s) == s;
    assert Unsigned(s) == s;
    assert !HasHexPrefix(s);
    assert DigitPrefix(s) == [];
  }

  /** `0x` or `0X` switches to base 16, with or without a minus sign; a `0x`
      with no hexadecimal digit after it is NaN even though `0` is a digit. */
  lemma ParseIntHex(u: string)
    requires HasHexPrefix(u) && forall i :: 2 <= i < |u| ==> IsHexDigit(u[i])
    ensures ParseInt(u) == if |u| == 2 then None else Some(HexValue(u[2..]))
    ensures ParseInt(['-'] + u) == if |u| == 2 then None else Some(-(HexValue(u[2..]) as int))
  {
    HexText(u[2..]);
    assert TrimStart(u) == u;
    assert Unsigned(u) == u;
    var t := ['-'] + u;
    assert t[1..] == u;
    assert TrimStart(t) == t;
    assert Unsigned(t) == u;
  }

  /** A run of hexadecimal digits is its own hexadecimal magnitude. */
  lemma HexText(hs: string)
    requires forall i :: 0 <= i < |hs| ==> IsHexDigit(hs[i])
    ensures HexMagnitude(hs) == if hs == [] then None else Some(HexValue(hs))
  {
    HexPrefixOfHexDigits(hs);
  }

  /** A string of hexadecimal digits is its own hexadecimal prefix. */
  lemma {:induction false} HexPrefixOfHexDigits(s: string)
    requires forall i :: 0 <= i < |s| ==> IsHexDigit(s[i])
    ensures HexPrefix(s) == s
  {
    if s != [] {
      HexPrefixOfHexDigits(s[1..]);
    }
  }
}
