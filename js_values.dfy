/**
 * The JavaScript values that reach the core from a parsed JSON body or query string,
 * and the two number parsers the core applies to them.
 *
 * `parseFloat` and `parseInt(_, 10)` read the leading number of `String(v)`, and are
 * modelled on the decimal forms only: a number yields itself (truncated toward zero for
 * `parseInt`), a string yields the value of its longest decimal prefix after leading
 * white space, a non-empty array yields what its first element yields (its string is the
 * first element's, then a comma, which ends every number), and every other value
 * yields NaN, written `None`.
 */
module JsValues {
  import opened Wrappers
  import opened Text

  /**
   * A JavaScript value. An array is an object marked `isArray` whose keys are "0", "1", ...
   * in order, as a repeated query parameter or a JSON array gives it.
   */
  datatype JsValue =
    | Undefined
    | Null
    | Bool(b: bool)
    | Num(n: real)
    | Str(s: string)
    | Obj(props: seq<Property>, isArray: bool)

  /** An own enumerable property. An object lists them in for-in order, keys distinct. */
  datatype Property = Property(key: string, value: JsValue)

  /** `!v`: the falsy values (NaN is not representable here). */
  predicate Falsy(v: JsValue) {
    v.Undefined? || v.Null? || v == Bool(false) || v == Num(0.0) || v == Str("")
  }

  /** `v[key]` for a `v` that is neither null nor undefined. */
  function Get(v: JsValue, key: string): (r: JsValue)
    ensures r != Undefined ==> v.Obj? && exists i :: 0 <= i < |v.props| && v.props[i] == Property(key, r)
    ensures v.Obj? && (forall i :: 0 <= i < |v.props| ==> v.props[i].key != key) ==> r == Undefined
  {
    if v.Obj? then GetIn(v.props, key) else Undefined
  }

  function GetIn(props: seq<Property>, key: string): (r: JsValue)
    ensures r != Undefined ==> exists i :: 0 <= i < |props| && props[i] == Property(key, r)
    ensures (forall i :: 0 <= i < |props| ==> props[i].key != key) ==> r == Undefined
  {
    if props == [] then Undefined
    else if props[0].key == key then props[0].value
    else GetIn(props[1..], key)
  }

  /* ----- Decimal digits ----- */

  /** The end of the run of decimal digits that starts at `i`. */
  function DigitsEnd(t: string, i: nat): (j: nat)
    requires i <= |t|
    ensures i <= j <= |t| && (j == |t| || !IsDigit(t[j]))
    ensures forall k :: i <= k < j ==> IsDigit(t[k])
    decreases |t| - i
  {
    if i < |t| && IsDigit(t[i]) then DigitsEnd(t, i + 1) else i
  }

  function DigitValue(c: char): nat
    requires IsDigit(c)
  {
    c as int - '0' as int
  }

  /** The number a string of decimal digits denotes. */
  function DigitsValue(d: string): nat
    requires forall k :: 0 <= k < |d| ==> IsDigit(d[k])
  {
    if d == [] then 0 else DigitsValue(d[..|d| - 1]) * 10 + DigitValue(d[|d| - 1])
  }

  /** The number the digits `t[i..j]` denote. */
  function DigitsBetween(t: string, i: nat, j: nat): nat
    requires i <= j <= |t| && forall m :: i <= m < j ==> IsDigit(t[m])
  {
    assert forall m :: 0 <= m < j - i ==> t[i..j][m] == t[i + m];
    DigitsValue(t[i..j])
  }

  /** The value of the digits from `i` on, appended to `acc`. */
  function DigitsFrom(t: string, i: nat, acc: nat): nat
    requires i <= |t|
    decreases |t| - i
  {
    if i < |t| && IsDigit(t[i]) then DigitsFrom(t, i + 1, acc * 10 + DigitValue(t[i])) else acc
  }

  /** The decimal exponent `e`/`E`, optional sign, digits starting at `k`; 0 when there is none. */
  function ExponentAt(t: string, k: nat): int
    requires k <= |t|
  {
    if k < |t| && (t[k] == 'e' || t[k] == 'E') then
      var neg := k + 1 < |t| && t[k + 1] == '-';
      var i := if k + 1 < |t| && (t[k + 1] == '+' || t[k + 1] == '-') then k + 2 else k + 1;
      if neg then -(DigitsFrom(t, i, 0) as int) else DigitsFrom(t, i, 0)
    else 0
  }

  /** `m` times ten to the power `e`, by repeated multiplication or division by ten. */
  function Scale(m: real, e: int): real
    decreases if e >= 0 then e else -e
  {
    if e == 0 then m else if e > 0 then Scale(m * 10.0, e - 1) else Scale(m / 10.0, e + 1)
  }

  /** `parseFloat` of a string: leading white space, a sign, digits with an optional fraction, an exponent. */
  function ParseDecimal(s: string): Option<real> {
    DecimalOf(TrimStart(s))
  }

  /** The number at the very start of `t`, if there is one. */
  function DecimalOf(t: string): Option<real> {
    var i := if |t| > 0 && (t[0] == '+' || t[0] == '-') then 1 else 0;
    var j := DigitsEnd(t, i);
    var dot := j < |t| && t[j] == '.';
    var k := if dot then DigitsEnd(t, j + 1) else j;
    if j == i && (!dot || k == j + 1) then None
    else Some(DecimalValue(t, i, j, dot, k))
  }

  /** The value of the sign `t[..i]`, the digits `t[i..j]`, the fraction digits up to `k`, and the exponent. */
  function DecimalValue(t: string, i: nat, j: nat, dot: bool, k: nat): real
    requires i <= j <= k <= |t| && (forall m :: i <= m < j ==> IsDigit(t[m]))
    requires dot ==> j < k && forall m :: j + 1 <= m < k ==> IsDigit(t[m])
    requires !dot ==> k == j
  {
    var m := Magnitude(DigitsBetween(t, i, j), if dot then DigitsBetween(t, j + 1, k) else 0,
                       if dot then k - (j + 1) else 0, ExponentAt(t, k));
    if i == 1 && t[0] == '-' then -m else m
  }

  /** The value of `whole.fraction` (the fraction `fracLen` digits long) times ten to the `exp`. */
  function Magnitude(whole: nat, fraction: nat, fracLen: nat, exp: int): real {
    Scale(whole as real + Scale(fraction as real, -(fracLen as int)), exp)
  }

  /** `parseInt(s, 10)` of a string: leading white space, a sign, at least one digit. */
  function ParseInteger(s: string): Option<int> {
    IntegerOf(TrimStart(s))
  }

  /** The integer at the very start of `t`, if there is one. */
  function IntegerOf(t: string): Option<int> {
    var i := if |t| > 0 && (t[0] == '+' || t[0] == '-') then 1 else 0;
    var j := DigitsEnd(t, i);
    if j == i then None
    else Some(if i == 1 && t[0] == '-' then -(DigitsBetween(t, i, j) as int) else DigitsBetween(t, i, j))
  }

  /** Rounding toward zero, what `parseInt` does to a number. */
  function Truncate(x: real): (n: int)
    ensures -1.0 < x - n as real < 1.0
    ensures x >= 0.0 ==> 0 <= n && n as real <= x
    ensures x < 0.0 ==> n <= 0 && x <= n as real
  {
    if x >= 0.0 then x.Floor else -((-x).Floor)
  }

  /** `parseFloat(v)`; `None` stands for NaN. */
  function ParseFloat(v: JsValue): Option<real>
    decreases v
  {
    match v
    case Num(x) => Some(x)
    case Str(s) => ParseDecimal(s)
    case Obj(props, isArray) => if isArray && props != [] then ParseFloat(props[0].value) else None
    case _ => None
  }

  /** `parseInt(v, 10)`; `None` stands for NaN. */
  function ParseInt(v: JsValue): Option<int>
    decreases v
  {
    match v
    case Num(x) => Some(Truncate(x))
    case Str(s) => ParseInteger(s)
    case Obj(props, isArray) => if isArray && props != [] then ParseInt(props[0].value) else None
    case _ => None
  }

  /* ----- `String(v)`, which both parsers read ----- */

  /** `String(v)`, with the shortest decimal rendering of numbers given as `num`. */
  function ToJsString(v: JsValue, num: real -> string): string
    decreases v
  {
    match v
    case Undefined => "undefined"
    case Null => "null"
    case Bool(b) => if b then "true" else "false"
    case Num(x) => num(x)
    case Str(s) => s
    case Obj(props, isArray) => if isArray then JoinElements(props, num) else "[object Object]"
  }

  /** `Array.prototype.join(",")`, which writes null and undefined elements as empty strings. */
  function JoinElements(props: seq<Property>, num: real -> string): string
    decreases props
  {
    if props == [] then ""
    else
      var e := props[0].value;
      var head := if e.Undefined? || e.Null? then "" else ToJsString(e, num);
      if |props| == 1 then head else head + "," + JoinElements(props[1..], num)
  }

  /** Every number inside `v` is rendered as text that both parsers read back as that number. */
  predicate NumbersReadBack(v: JsValue, num: real -> string)
    decreases v
  {
    match v
    case Num(x) => ParseDecimal(num(x)) == Some(x) && ParseInteger(num(x)) == Some(Truncate(x))
    case Obj(props, _) => ElementsReadBack(props, num)
    case _ => true
  }

  predicate ElementsReadBack(props: seq<Property>, num: real -> string)
    decreases props
  {
    props == [] || (NumbersReadBack(props[0].value, num) && ElementsReadBack(props[1..], num))
  }

  /** `TrimStart` of a string followed by text that starts with something other than white space. */
  lemma {:induction false} TrimStartBefore(s: string, x: string)
    requires x != [] && !IsSpace(x[0])
    ensures TrimStart(s + x) == if IsBlank(s) then x else TrimStart(s) + x
    decreases |s|
  {
    var u := s + x;
    if s == [] {
      assert u == x;
    } else if IsSpace(s[0]) {
      assert u[0] == s[0] && u[1..] == s[1..] + x;
      assert TrimStart(u) == TrimStart(u[1..]);
      assert TrimStart(s) == TrimStart(s[1..]);
      TrimStartBefore(s[1..], x);
      BlankAfterSpace(s);
    } else {
      assert u[0] == s[0];
      assert TrimStart(u) == u && TrimStart(s) == s;
      assert !IsBlank(s);
    }
  }

  /** A string that starts with white space is blank iff the rest is. */
  lemma BlankAfterSpace(s: string)
    requires s != [] && IsSpace(s[0])
    ensures IsBlank(s) == IsBlank(s[1..])
  {
    if IsBlank(s[1..]) {
      forall i | 0 <= i < |s| ensures IsSpace(s[i]) { if i > 0 { assert s[i] == s[1..][i - 1]; } }
    }
  }

  /** `u` is `t` followed by a comma and possibly more. */
  predicate CommaAfter(t: string, u: string) {
    |t| < |u| && u[..|t|] == t && u[|t|] == ','
  }

  lemma {:induction false} DigitsEndBeforeComma(t: string, u: string, i: nat)
    requires CommaAfter(t, u) && i <= |t|
    ensures DigitsEnd(u, i) == DigitsEnd(t, i)
    decreases |t| - i
  {
    if i < |t| {
      assert u[i] == u[..|t|][i];
      if IsDigit(t[i]) { DigitsEndBeforeComma(t, u, i + 1); }
    }
  }

  lemma {:induction false} DigitsFromBeforeComma(t: string, u: string, i: nat, acc: nat)
    requires CommaAfter(t, u) && i <= |t|
    ensures DigitsFrom(u, i, acc) == DigitsFrom(t, i, acc)
    decreases |t| - i
  {
    if i < |t| {
      assert u[i] == u[..|t|][i];
      if IsDigit(t[i]) { DigitsFromBeforeComma(t, u, i + 1, acc * 10 + DigitValue(t[i])); }
    }
  }

  lemma ExponentAtBeforeComma(t: string, u: string, k: nat)
    requires CommaAfter(t, u) && k <= |t|
    ensures ExponentAt(u, k) == ExponentAt(t, k)
  {
    if k < |t| && (t[k] == 'e' || t[k] == 'E') {
      assert u[k] == u[..|t|][k];
      if k + 1 < |t| { assert u[k + 1] == u[..|t|][k + 1]; }
      var i := if k + 1 < |t| && (t[k + 1] == '+' || t[k + 1] == '-') then k + 2 else k + 1;
      DigitsFromBeforeComma(t, u, i, 0);
    } else if k < |t| {
      assert u[k] == u[..|t|][k];
    }
  }

  /** A blank string has nothing left after `TrimStart`. */
  lemma TrimStartOfBlank(s: string)
    ensures IsBlank(s) <==> TrimStart(s) == []
  {
    var t := TrimStart(s);
    if t != [] {
      assert t[0] == s[|s| - |t|];
    }
  }

  lemma SameSliceBeforeComma(t: string, u: string, i: nat, j: nat)
    requires CommaAfter(t, u) && i <= j <= |t|
    ensures u[i..j] == t[i..j]
  {
    forall m | i <= m < j ensures u[m] == t[m] { assert u[m] == u[..|t|][m]; }
    assert u[i..j] == t[i..j];
  }

  /** A comma ends the number at the start of a string: what follows it is never looked at. */
  lemma DecimalOfBeforeComma(t: string, u: string)
    requires t != [] && CommaAfter(t, u)
    ensures DecimalOf(u) == DecimalOf(t)
  {
    assert u[0] == u[..|t|][0];
    var i := if t[0] == '+' || t[0] == '-' then 1 else 0;
    DigitsEndBeforeComma(t, u, i);
    var j := DigitsEnd(t, i);
    if j < |t| { assert u[j] == u[..|t|][j]; }
    var dot := j < |t| && t[j] == '.';
    if dot { DigitsEndBeforeComma(t, u, j + 1); }
    var k := if dot then DigitsEnd(t, j + 1) else j;
    assert i == (if |u| > 0 && (u[0] == '+' || u[0] == '-') then 1 else 0);
    assert dot == (j < |u| && u[j] == '.');
    DecimalValueBeforeComma(t, u, i, j, dot, k);
    assert DecimalOf(t) == if j == i && (!dot || k == j + 1) then None else Some(DecimalValue(t, i, j, dot, k));
  }

  lemma DecimalValueBeforeComma(t: string, u: string, i: nat, j: nat, dot: bool, k: nat)
    requires CommaAfter(t, u) && 0 < |t|
    requires i <= j <= k <= |t| && (forall m :: i <= m < j ==> IsDigit(t[m]))
    requires dot ==> j < k && forall m :: j + 1 <= m < k ==> IsDigit(t[m])
    requires !dot ==> k == j
    ensures forall m :: i <= m < j ==> IsDigit(u[m])
    ensures dot ==> forall m :: j + 1 <= m < k ==> IsDigit(u[m])
    ensures DecimalValue(u, i, j, dot, k) == DecimalValue(t, i, j, dot, k)
  {
    ExponentAtBeforeComma(t, u, k);
    forall m | 0 <= m < |t| ensures u[m] == t[m] { assert u[m] == u[..|t|][m]; }
    assert u[i..j] == t[i..j];
    if dot { assert u[j + 1..k] == t[j + 1..k]; }
  }

  lemma IntegerOfBeforeComma(t: string, u: string)
    requires t != [] && CommaAfter(t, u)
    ensures IntegerOf(u) == IntegerOf(t)
  {
    assert u[0] == u[..|t|][0];
    var i := if t[0] == '+' || t[0] == '-' then 1 else 0;
    DigitsEndBeforeComma(t, u, i);
    var j := DigitsEnd(t, i);
    SameSliceBeforeComma(t, u, i, j);
  }

  /** So `parseFloat` and `parseInt` of a string followed by a comma read the string alone. */
  lemma ParsersBeforeComma(s: string, x: string)
    requires x != [] && x[0] == ','
    ensures ParseDecimal(s + x) == ParseDecimal(s)
    ensures ParseInteger(s + x) == ParseInteger(s)
  {
    TrimStartBefore(s, x);
    TrimStartOfBlank(s);
    var t := TrimStart(s);
    if t != [] {
      var u := t + x;
      assert CommaAfter(t, u);
      DecimalOfBeforeComma(t, u);
      IntegerOfBeforeComma(t, u);
    } else {
      NoLeadingNumber(x);
    }
  }

  /** A string that starts with none of white space, a sign, a digit or a point holds no number. */
  lemma NoLeadingNumber(s: string)
    requires s != [] && !IsSpace(s[0]) && !IsDigit(s[0]) && s[0] !in {'+', '-', '.'}
    ensures ParseDecimal(s) == None && ParseInteger(s) == None
  {
    assert TrimStart(s) == s;
  }

  /**
   * Both parsers read the leading number of `String(v)`: an array is read through the string of
   * its first element, and `undefined`, `null`, booleans, plain objects and the empty array give NaN.
   */
  lemma {:induction false} ParsersReadString(v: JsValue, num: real -> string)
    requires NumbersReadBack(v, num)
    ensures ParseFloat(v) == ParseDecimal(ToJsString(v, num))
    ensures ParseInt(v) == ParseInteger(ToJsString(v, num))
    decreases v
  {
    match v
    case Undefined => NoLeadingNumber("undefined");
    case Null => NoLeadingNumber("null");
    case Bool(b) => if b { NoLeadingNumber("true"); } else { NoLeadingNumber("false"); }
    case Num(_) =>
    case Str(_) =>
    case Obj(props, isArray) =>
      if !isArray {
        NoLeadingNumber("[object Object]");
      } else if props != [] {
        var e := props[0].value;
        if !(e.Undefined? || e.Null?) {
          ParsersReadString(e, num);
        }
        ArrayReadsFirst(props, num);
      }
  }

  /** The string of a non-empty array: its first element's string, then a comma if more follow. */
  lemma JoinElementsHead(props: seq<Property>, num: real -> string) returns (head: string, x: string)
    requires props != []
    ensures head == if props[0].value.Undefined? || props[0].value.Null? then "" else ToJsString(props[0].value, num)
    ensures JoinElements(props, num) == head + x && (x == [] || x[0] == ',')
  {
    var e := props[0].value;
    head := if e.Undefined? || e.Null? then "" else ToJsString(e, num);
    x := if |props| == 1 then "" else "," + JoinElements(props[1..], num);
  }

  /** So both parsers read a non-empty array through its first element. */
  lemma ArrayReadsFirst(props: seq<Property>, num: real -> string)
    requires props != []
    ensures var e := props[0].value;
            var s := JoinElements(props, num);
            (e.Undefined? || e.Null? ==> ParseDecimal(s) == None && ParseInteger(s) == None)
            && (!(e.Undefined? || e.Null?) ==>
                  ParseDecimal(s) == ParseDecimal(ToJsString(e, num)) && ParseInteger(s) == ParseInteger(ToJsString(e, num)))
  {
    var head, x := JoinElementsHead(props, num);
    HeadReadsAlone(head, x);
  }

  /** The parsers read `head + x` as `head`, and an empty `head` as NaN, when `x` is empty or starts with a comma. */
  lemma HeadReadsAlone(head: string, x: string)
    requires x == [] || x[0] == ','
    ensures ParseDecimal(head + x) == ParseDecimal(head) && ParseInteger(head + x) == ParseInteger(head)
    ensures head == [] ==> ParseDecimal(head + x) == None && ParseInteger(head + x) == None
  {
    if x == [] {
      assert head + x == head;
    } else {
      ParsersBeforeComma(head, x);
    }
    if head == [] {
      assert head + x == x;
      if x != [] { NoLeadingNumber(x); }
    }
  }

  /** A single digit followed by something that cannot continue a number parses as that digit. */
  lemma SingleDigitParses(d: char, x: string)
    requires IsDigit(d) && (x == [] || (!IsDigit(x[0]) && x[0] != '.' && x[0] != 'e' && x[0] != 'E'))
    ensures ParseDecimal([d] + x) == Some(DigitValue(d) as real)
  {
    var t := [d] + x;
    assert !IsSpace(d);
    assert t != [] && t[0] == d;
    assert TrimStart(t) == t;
    assert DigitsEnd(t, 0) == 1 by {
      assert t[0] == d && (|t| > 1 ==> t[1] == x[0]);
      assert DigitsEnd(t, 1) == 1;
    }
    assert DecimalValue(t, 0, 1, false, 1) == DigitValue(d) as real by {
      assert ExponentAt(t, 1) == 0 by { assert |t| > 1 ==> t[1] == x[0]; }
      var w := t[0..1];
      assert w == [d] && w[..0] == [];
      assert DigitsValue(w) == DigitsValue(w[..0]) * 10 + DigitValue(w[0]);
      assert DigitsBetween(t, 0, 1) == DigitValue(d);
      assert Magnitude(DigitValue(d), 0, 0, 0) == DigitValue(d) as real;
    }
    assert t[0] == d && (|t| > 1 ==> t[1] == x[0]);
    assert !(t[0] == '+' || t[0] == '-');
    assert !(1 < |t| && t[1] == '.');
    assert DecimalOf(t) == Some(DecimalValue(t, 0, 1, false, 1));
    assert ParseDecimal(t) == DecimalOf(t);
  }

  /* ----- Decimal rendering, the inverse the parsers are checked against ----- */

  function DigitChar(d: nat): (c: char)
    requires d < 10
    ensures IsDigit(c) && DigitValue(c) == d
  {
    ('0' as int + d) as char
  }

  /** The decimal digits of `n`, most significant first, without leading zeros. */
  function NatDigits(n: nat): (d: string)
    ensures |d| >= 1 && forall k :: 0 <= k < |d| ==> IsDigit(d[k])
  {
    if n < 10 then [DigitChar(n)] else NatDigits(n / 10) + [DigitChar(n % 10)]
  }

  /** `String(n)` for an integer. */
  function IntToString(n: int): string {
    if n < 0 then "-" + NatDigits(-n) else NatDigits(n)
  }

  lemma {:induction false} DigitsValueOfNatDigits(n: nat)
    ensures DigitsValue(NatDigits(n)) == n
  {
    if n >= 10 {
      var d := NatDigits(n);
      assert d[..|d| - 1] == NatDigits(n / 10);
      DigitsValueOfNatDigits(n / 10);
    }
  }

  /** `String(n)` is an optional minus sign followed by digits up to the end denoting `|n|`. */
  lemma IntToStringShape(n: int, t: string, i: nat)
    requires t == IntToString(n) && i == (if n < 0 then 1 else 0)
    ensures TrimStart(t) == t && i <= |t|
    ensures (if |t| > 0 && (t[0] == '+' || t[0] == '-') then 1 else 0) == i
    ensures (i == 1 && t[0] == '-') == (n < 0)
    ensures DigitsEnd(t, i) == |t| > i
    ensures DigitsValue(t[i..|t|]) == if n < 0 then -n else n
  {
    var m: nat := if n < 0 then -n else n;
    assert t[i..] == NatDigits(m);
    assert n < 0 ==> t[0] == '-';
    assert n >= 0 ==> IsDigit(t[0]);
    assert DigitsEnd(t, i) == |t|;
    assert t[i..|t|] == NatDigits(m);
    DigitsValueOfNatDigits(m);
  }

  /** `parseInt(String(n), 10) === n` for every integer. */
  lemma ParseIntRoundTrip(n: int)
    ensures ParseInt(Str(IntToString(n))) == Some(n)
    ensures ParseInt(Num(n as real)) == Some(n)
  {
    IntToStringShape(n, IntToString(n), if n < 0 then 1 else 0);
  }

  /** `parseFloat(String(n)) === n` for every integer. */
  lemma ParseFloatOfInteger(n: int)
    ensures ParseFloat(Str(IntToString(n))) == Some(n as real)
  {
    IntToStringShape(n, IntToString(n), if n < 0 then 1 else 0);
  }
}
