/** JavaScript values as the task and user store sees them once parsed
    from storage: primitives, and objects as field maps. Object spread
    `{...a, ...b}` is map union (right-biased) and `delete o.k` is map
    subtraction, so records keep exactly the fields the source gives them. */
module JsValues {

  datatype Option<+T> = None | Some(value: T)

  datatype Value =
    | Null
    | Bool(b: bool)
    | Num(n: int)
    | NaN
    | Str(s: string)
    | Obj(fields: map<string, Value>)

  /** A plain object: a task, a user, a `reminder` sub-object. */
  type Record = map<string, Value>

  /** Property access `o.k`; an absent field reads as `undefined` (None). */
  function Get(o: Record, k: string): (r: Option<Value>)
    ensures r.Some? <==> k in o
    ensures r.Some? ==> r.value == o[k]
  {
    if k in o then Some(o[k]) else None
  }

  /** JavaScript truthiness; `undefined` is None. */
  predicate Truthy(v: Option<Value>) {
    match v
    case None => false
    case Some(x) =>
      match x
      case Null => false
      case Bool(b) => b
      case Num(n) => n != 0
      case NaN => false
      case Str(s) => s != ""
      case Obj(_) => true
  }

  /** `a === b`. NaN is never equal to itself and two parsed objects are
      never the same object; `undefined === undefined` holds. */
  predicate StrictEq(a: Option<Value>, b: Option<Value>) {
    a == b && (a.Some? ==> !a.value.NaN? && !a.value.Obj?)
  }

  /** `{...base, ...over}` */
  function Spread(base: Record, over: Record): (r: Record)
    ensures r.Keys == base.Keys + over.Keys
    ensures forall k :: k in over ==> r[k] == over[k]
    ensures forall k :: k in base && k !in over ==> r[k] == base[k]
  {
    base + over
  }

  // ---------------------------------------------------------------------
  // Decimal rendering (`n.toString()`) and `parseInt`

  predicate IsDigit(c: char) { '0' <= c <= '9' }

  function DigitChar(d: nat): char
    requires d < 10
  {
    ('0' as int + d) as char
  }

  function DigitValue(c: char): nat
    requires IsDigit(c)
  {
    c as int - '0' as int
  }

  /** `n.toString()` for a non-negative integer such as `Date.now()`. */
  function Decimal(n: nat): (r: string)
    ensures |r| > 0
    ensures forall i :: 0 <= i < |r| ==> IsDigit(r[i])
  {
    if n < 10 then [DigitChar(n)] else Decimal(n / 10) + [DigitChar(n % 10)]
  }

  /** The value of a string of decimal digits. */
  function DigitsValue(d: string): nat
    requires forall i :: 0 <= i < |d| ==> IsDigit(d[i])
  {
    if d == [] then 0 else DigitsValue(d[..|d| - 1]) * 10 + DigitValue(d[|d| - 1])
  }

  /** Length of the longest prefix of `s` made of decimal digits. */
  function DigitRun(s: string): (k: nat)
    ensures k <= |s|
    ensures forall i :: 0 <= i < k ==> IsDigit(s[i])
    ensures k < |s| ==> !IsDigit(s[k])
  {
    if s == [] || !IsDigit(s[0]) then 0 else 1 + DigitRun(s[1..])
  }

  /** The white-space characters of ECMAScript (`\s`, and what `trim`
      and `parseInt` skip). */
  predicate IsSpace(c: char) {
    c == ' ' || c == '\t' || c == '\n' || c == '\U{000B}' || c == '\U{000C}' || c == '\r'
    || c == '\U{00A0}' || c == '\U{1680}' || ('\U{2000}' <= c <= '\U{200A}')
    || c == '\U{2028}' || c == '\U{2029}' || c == '\U{202F}' || c == '\U{205F}'
    || c == '\U{3000}' || c == '\U{FEFF}'
  }

  function TrimStart(s: string): (r: string)
    ensures |r| <= |s| && r == s[|s| - |r|..]
    ensures r != [] ==> !IsSpace(r[0])
  {
    if s != [] && IsSpace(s[0]) then TrimStart(s[1..]) else s
  }

  /** `parseInt(s)` on a string (radix 10): leading white space, an
      optional sign, then the longest run of digits; no digits is NaN. */
  function ParseIntStr(s: string): Option<int> {
    var t := TrimStart(s);
    var negative := t != [] && t[0] == '-';
    var u := if t != [] && (t[0] == '-' || t[0] == '+') then t[1..] else t;
    var k := DigitRun(u);
    if k == 0 then None
    else
      var v: int := DigitsValue(u[..k]);
      Some(if negative then -v else v)
  }

  /** `parseInt(v)` on any value: numbers keep their integer value, every
      other non-string renders to a string with no leading digit. */
  function ParseInt(v: Value): Option<int> {
    match v
    case Num(n) => Some(n)
    case Str(s) => ParseIntStr(s)
    case _ => None
  }

  lemma {:induction false} DigitsValueOfDecimal(n: nat)
    ensures DigitsValue(Decimal(n)) == n
  {
    if n >= 10 {
      var d := Decimal(n);
      assert d[..|d| - 1] == Decimal(n / 10);
      DigitsValueOfDecimal(n / 10);
    }
  }

  /** Reading back an id made by `Date.now().toString()` gives the clock value. */
  lemma ParseDecimal(n: nat)
    ensures ParseIntStr(Decimal(n)) == Some(n)
  {
    var d := Decimal(n);
    assert TrimStart(d) == d;
    assert DigitRun(d) == |d| by { DigitRunAll(d); }
    assert d[..|d|] == d;
    DigitsValueOfDecimal(n);
  }

  lemma {:induction false} DigitRunAll(s: string)
    requires forall i :: 0 <= i < |s| ==> IsDigit(s[i])
    ensures DigitRun(s) == |s|
  {
    if s != [] {
      DigitRunAll(s[1..]);
    }
  }

  /** Two different clock readings never give the same id string. */
  lemma DecimalInjective(m: nat, n: nat)
    requires Decimal(m) == Decimal(n)
    ensures m == n
  {
    ParseDecimal(m);
    ParseDecimal(n);
  }
}
