/** JavaScript values as the browser client sees them once Socket.IO has
    decoded an event payload, and the few language rules the client relies
    on: truthiness, strict equality, property reads, conversion to a string
    (which is also how a value becomes an object key), numeric coercion,
    `parseInt`, ASCII lower-casing and `String.prototype.includes`. */
module Js {

  datatype Option<T> = None | Some(value: T)

  /** Numbers are modelled as integers; `NaN` is the one non-finite number
      the client code can meet (from `parseInt`). */
  datatype Value =
    | Undefined
    | Null
    | Bool(b: bool)
    | Number(n: int)
    | NaN
    | Text(s: string)
    | Object(fields: map<string, Value>)

  /** A plain object, seen as its own properties. */
  type Record = map<string, Value>

  /** `obj[key]`: `undefined` when the property is absent. */
  function Get(obj: Record, key: string): Value
  {
    if key in obj then obj[key] else Undefined
  }

  /** `v.key` for any value: only objects carry properties here. */
  function Prop(v: Value, key: string): Value
  {
    if v.Object? then Get(v.fields, key) else Undefined
  }

  /** `!!v` */
  predicate Truthy(v: Value)
  {
    match v
    case Undefined => false
    case Null => false
    case Bool(b) => b
    case Number(n) => n != 0
    case NaN => false
    case Text(s) => s != ""
    case Object(_) => true
  }

  /** `a && b` and `a || b` return one of their operands. */
  function JsAnd(a: Value, b: Value): Value
  {
    if Truthy(a) then b else a
  }

  function JsOr(a: Value, b: Value): Value
  {
    if Truthy(a) then a else b
  }

  /** `a === b`. `NaN` equals nothing; two decoded objects are always
      distinct references. */
  predicate StrictEquals(a: Value, b: Value)
  {
    match (a, b)
    case (Undefined, Undefined) => true
    case (Null, Null) => true
    case (Bool(x), Bool(y)) => x == y
    case (Number(x), Number(y)) => x == y
    case (Text(x), Text(y)) => x == y
    case _ => false
  }

  /** Strict equality is symmetric, implies equality of the modelled values,
      and is transitive. */
  lemma StrictEqualsLaws(a: Value, b: Value, c: Value)
    ensures StrictEquals(a, b) ==> StrictEquals(b, a) && a == b
    ensures StrictEquals(a, b) && StrictEquals(b, c) ==> StrictEquals(a, c)
  {
  }

  /** The numeric coercion `-`, `/` and `%` apply to an operand (`Number(v)`);
      `None` stands for `NaN`. Text is converted by `TextToNumber`. */
  function ToNumber(v: Value): Option<int>
  {
    match v
    case Undefined => None
    case Null => Some(0)
    case Bool(b) => Some(if b then 1 else 0)
    case Number(n) => Some(n)
    case NaN => None
    case Text(s) => TextToNumber(s)
    case Object(_) => None
  }

  /** `Number(s)` for a string: white space around the number is ignored,
      text that is empty or all white space gives 0, and an optionally signed
      run of decimal digits gives that integer. Everything else is `NaN` here,
      including fractions, exponents, `0x` literals and `Infinity`, which lie
      outside the integer model. */
  function TextToNumber(s: string): Option<int>
  {
    var t := TrimEnd(TrimStart(s));
    if t == [] then Some(0)
    else
      var body := if t[0] == '-' || t[0] == '+' then t[1..] else t;
      if body != [] && AllDigits(body) then
        Some(if t[0] == '-' then -(DecimalValue(body) as int) else DecimalValue(body))
      else None
  }

  // ---- decimal digits ----

  predicate IsDigit(c: char)
  {
    '0' <= c <= '9'
  }

  function DigitChar(d: nat): (c: char)
    requires d < 10
    ensures IsDigit(c) && DigitValue(c) == d
  {
    (48 + d) as char
  }

  function DigitValue(c: char): nat
    requires IsDigit(c)
  {
    c as nat - 48
  }

  predicate AllDigits(s: string)
  {
    forall i :: 0 <= i < |s| ==> IsDigit(s[i])
  }

  /** The number a string of decimal digits denotes. */
  function DecimalValue(s: string): nat
    requires AllDigits(s)
  {
    if s == [] then 0 else DecimalValue(s[..|s| - 1]) * 10 + DigitValue(s[|s| - 1])
  }

  /** Decimal rendering of a natural number, most significant digit first. */
  function NatToString(n: nat): (s: string)
    ensures s != [] && AllDigits(s)
    ensures DecimalValue(s) == n
  {
    if n < 10 then [DigitChar(n)]
    else
      var s := NatToString(n / 10) + [DigitChar(n % 10)];
      assert s[..|s| - 1] == NatToString(n / 10);
      s
  }

  /** `String(n)` for an integer number. */
  function IntToString(n: int): string
  {
    if n < 0 then "-" + NatToString(-n) else NatToString(n)
  }

  /** `String(v)`; also the property key `obj[v]` uses. */
  function ToJsString(v: Value): string
  {
    match v
    case Undefined => "undefined"
    case Null => "null"
    case Bool(b) => if b then "true" else "false"
    case Number(n) => IntToString(n)
    case NaN => "NaN"
    case Text(s) => s
    case Object(_) => "[object Object]"
  }

  // ---- parseInt ----

  /** The characters JavaScript counts as white space or line terminators:
      tab, vertical tab, form feed, the byte order mark, line feed, carriage
      return, the line and paragraph separators and every space separator. */
  predicate IsSpace(c: char)
  {
    || c == '\t' || c == '\U{000B}' || c == '\U{000C}' || c == '\U{FEFF}'
    || c == '\n' || c == '\r' || c == '\U{2028}' || c == '\U{2029}'
    || c == ' ' || c == '\U{00A0}' || c == '\U{1680}' || '\U{2000}' <= c <= '\U{200A}'
    || c == '\U{202F}' || c == '\U{205F}' || c == '\U{3000}'
  }

  function TrimStart(s: string): (r: string)
    ensures |r| <= |s|
    ensures r != [] ==> !IsSpace(r[0])
  {
    if s != [] && IsSpace(s[0]) then TrimStart(s[1..]) else s
  }

  function TrimEnd(s: string): (r: string)
    ensures |r| <= |s|
    ensures r != [] ==> !IsSpace(r[|r| - 1])
  {
    if s != [] && IsSpace(s[|s| - 1]) then TrimEnd(s[..|s| - 1]) else s
  }

  /** The longest prefix of `s` made of decimal digits. */
  function DigitPrefix(s: string): (r: string)
    ensures AllDigits(r) && |r| <= |s|
  {
    if s != [] && IsDigit(s[0]) then [s[0]] + DigitPrefix(s[1..]) else []
  }

  /** `parseInt(s)` with radix 10: leading white space, an optional sign,
      then as many digits as follow; `NaN` when there are none. */
  function ParseInt(s: string): Value
  {
    var t := TrimStart(s);
    var negative := t != [] && t[0] == '-';
    var body := if t != [] && (t[0] == '-' || t[0] == '+') then t[1..] else t;
    var digits := DigitPrefix(body);
    if digits == [] then NaN
    else Number(if negative then -(DecimalValue(digits) as int) else DecimalValue(digits))
  }

  lemma {:induction false} DigitPrefixOfDigits(s: string)
    requires AllDigits(s)
    ensures DigitPrefix(s) == s
  {
    if s != [] {
      DigitPrefixOfDigits(s[1..]);
    }
  }

  /** Reading back what `String(n)` wrote gives `n` again: this is why the
      value attribute of a channel option selects that channel's messages. */
  lemma ParseIntOfIntToString(n: int)
    ensures ParseInt(IntToString(n)) == Number(n)
  {
    var m: nat := if n < 0 then -n else n;
    var digits := NatToString(m);
    DigitPrefixOfDigits(digits);
    if n < 0 {
      var s := "-" + digits;
      assert TrimStart(s) == s;
      assert s[1..] == digits;
    } else {
      assert !IsSpace(digits[0]);
      assert TrimStart(digits) == digits;
    }
  }

  /** Numeric coercion reads back what `String(n)` wrote, so a number sent
      as its decimal text subtracts as that number; empty text counts as 0. */
  lemma NumberOfIntToString(n: int)
    ensures ToNumber(Text(IntToString(n))) == Some(n)
    ensures ToNumber(Text("")) == Some(0)
  {
    var m: nat := if n < 0 then -n else n;
    var digits := NatToString(m);
    var s := IntToString(n);
    assert !IsSpace(s[0]) && !IsSpace(s[|s| - 1]);
    assert TrimStart(s) == s;
    assert TrimEnd(s) == s;
    if n < 0 {
      assert s[1..] == digits;
    }
  }

  // ---- case folding and substring search ----

  /** ASCII lower-casing of one character. */
  function LowerChar(c: char): char
  {
    if 'A' <= c <= 'Z' then (c as int + 32) as char else c
  }

  /** `s.toLowerCase()`, restricted to ASCII letters. */
  function Lower(s: string): (r: string)
    ensures |r| == |s|
    ensures forall i :: 0 <= i < |s| ==> r[i] == LowerChar(s[i])
  {
    seq(|s|, i requires 0 <= i < |s| => LowerChar(s[i]))
  }

  /** `t` occurs in `s` starting at position `i`. */
  predicate OccursAt(s: string, t: string, i: int)
  {
    0 <= i && i + |t| <= |s| && s[i..i + |t|] == t
  }

  /** `s.includes(t)`. */
  predicate Includes(s: string, t: string)
  {
    |t| <= |s| && (s[..|t|] == t || Includes(s[1..], t))
  }

  /** `Includes` finds `t` exactly when it occurs somewhere in `s`. */
  lemma {:induction false} IncludesIffOccurs(s: string, t: string)
    ensures Includes(s, t) <==> exists i :: OccursAt(s, t, i)
  {
    if |t| <= |s| {
      if s[..|t|] == t {
        assert OccursAt(s, t, 0);
      } else {
        IncludesIffOccurs(s[1..], t);
        if Includes(s[1..], t) {
          var i :| OccursAt(s[1..], t, i);
          assert s[1..][i..i + |t|] == s[i + 1..i + 1 + |t|];
          assert OccursAt(s, t, i + 1);
        }
        if i :| OccursAt(s, t, i) {
          assert i != 0;
          assert s[1..][i - 1..i - 1 + |t|] == s[i..i + |t|];
          assert OccursAt(s[1..], t, i - 1);
        }
      }
    } else {
      if i :| OccursAt(s, t, i) {
        assert false;
      }
    }
  }

  /** The empty string is included in every string, and every string in
      itself. */
  lemma IncludesEmptyAndSelf(s: string)
    ensures Includes(s, "") && Includes(s, s)
  {
    assert OccursAt(s, "", 0);
    assert s[0..|s|] == s;
    assert OccursAt(s, s, 0);
    IncludesIffOccurs(s, "");
    IncludesIffOccurs(s, s);
  }

  /** Lower-casing leaves the decimal rendering of a number alone. */
  lemma LowerIntToString(n: int)
    ensures Lower(IntToString(n)) == IntToString(n)
  {
    var s := IntToString(n);
    assert forall i :: 0 <= i < |s| ==> !('A' <= s[i] <= 'Z') by {
      if n < 0 {
        assert s == "-" + NatToString(-n);
        forall i | 0 <= i < |s| ensures !('A' <= s[i] <= 'Z') {
          if i > 0 { assert s[i] == NatToString(-n)[i - 1]; }
        }
      }
    }
  }
}
