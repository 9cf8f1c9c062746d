/** Runtime values (`Object`) and their operator semantics.

    * `Integer` holds a 32-bit signed value; `+`, `-`, `*` and negation that
      leave the 32-bit range are failures (they panic in a debug build).
    * `Float` holds a rust_decimal `Decimal`, modelled by the exact rational
      number it denotes, so equality and ordering are numeric as in
      rust_decimal.
    * `String` holds an interned handle. The interner maps equal texts to the
      same handle and resolves a handle to its text, so a handle is modelled
      by the text it resolves to. */
module Objects {
  import opened Results

  const I32_MIN: int := -0x8000_0000
  const I32_MAX: int := 0x7fff_ffff

  type I32 = x: int | I32_MIN <= x <= I32_MAX

  predicate InI32(x: int) {
    I32_MIN <= x <= I32_MAX
  }

  /** An interned string handle (a lasso `Spur`). */
  datatype Symbol = Symbol(text: string)

  /** `get_or_intern`: the handle of a text. */
  function Intern(s: string): (h: Symbol)
    ensures Resolve(h) == s
  {
    Symbol(s)
  }

  /** `resolve`: the text of a handle. */
  function Resolve(h: Symbol): string {
    h.text
  }

  /** Interning is injective, and resolving then re-interning gives the same handle back. */
  lemma InternRoundTrip(s: string, t: string, h: Symbol)
    ensures Intern(s) == Intern(t) <==> s == t
    ensures Intern(Resolve(h)) == h
  {
  }

  datatype Object =
    | String(sym: Symbol)
    | Integer(i: I32)
    | Float(f: real)
    | Boolean(b: bool)
    | NullValue

  predicate IsNumber(o: Object) {
    o.Integer? || o.Float?
  }

  /** The number an Integer or Float denotes. */
  function NumericValue(o: Object): real
    requires IsNumber(o)
  {
    if o.Integer? then o.i as real else o.f
  }

  /** A 32-bit result, or the overflow failure. */
  function CheckedInteger(x: int): (r: Result<Object>)
    ensures r.Ok? <==> InI32(x)
    ensures r.Ok? ==> r.value.Integer? && NumericValue(r.value) == x as real
    ensures r.Err? ==> r.error == IntegerOverflow
  {
    if InI32(x) then Ok(Integer(x)) else Err(IntegerOverflow)
  }

  //---------------------------------------------------------------------------
  // Arithmetic
  //---------------------------------------------------------------------------

  /** `+`: strings concatenate, integers add in 32 bits, a float with a float or
      an integer adds as a decimal; every other pairing fails. */
  function AddObjects(a: Object, b: Object): (r: Result<Object>)
    ensures a.String? && b.String? ==>
      r.Ok? && r.value.String? && Resolve(r.value.sym) == Resolve(a.sym) + Resolve(b.sym)
    ensures a.Integer? && b.Integer? ==> r == CheckedInteger(a.i + b.i)
    ensures IsNumber(a) && IsNumber(b) && (a.Float? || b.Float?) ==>
      r == Ok(Float(NumericValue(a) + NumericValue(b)))
    ensures r == Err(InvalidOperationArguments) <==>
      !((a.String? && b.String?) || (IsNumber(a) && IsNumber(b)))
  {
    match (a, b)
    case (String(s1), String(s2)) => Ok(String(Intern(Resolve(s1) + Resolve(s2))))
    case (Integer(i1), Integer(i2)) => CheckedInteger(i1 + i2)
    case (Integer(i), Float(f)) => Ok(Float(f + i as real))
    case (Float(f), Integer(i)) => Ok(Float(f + i as real))
    case (Float(f1), Float(f2)) => Ok(Float(f1 + f2))
    case _ => Err(InvalidOperationArguments)
  }

  /** `-` as the source writes it: one or-pattern binds the float to `f` and the
      integer to `i` whichever operand each is, and computes `f - i`. */
  function SubObjectsAsWritten(a: Object, b: Object): (r: Result<Object>)
    ensures a.Integer? && b.Integer? ==> r == CheckedInteger(a.i - b.i)
    ensures a.Float? && IsNumber(b) ==> r == Ok(Float(NumericValue(a) - NumericValue(b)))
    ensures a.Integer? && b.Float? ==> r == Ok(Float(NumericValue(b) - NumericValue(a)))
    ensures r == Err(InvalidOperationArguments) <==> !(IsNumber(a) && IsNumber(b))
  {
    match (a, b)
    case (Integer(i1), Integer(i2)) => CheckedInteger(i1 - i2)
    case (Integer(i), Float(f)) => Ok(Float(f - i as real))
    case (Float(f), Integer(i)) => Ok(Float(f - i as real))
    case (Float(f1), Float(f2)) => Ok(Float(f1 - f2))
    case _ => Err(InvalidOperationArguments)
  }

  /** `-` with the operands kept in order: the left operand minus the right one. */
  function SubObjects(a: Object, b: Object): (r: Result<Object>)
    ensures a.Integer? && b.Integer? ==> r == CheckedInteger(a.i - b.i)
    ensures IsNumber(a) && IsNumber(b) && (a.Float? || b.Float?) ==>
      r == Ok(Float(NumericValue(a) - NumericValue(b)))
    ensures r == Err(InvalidOperationArguments) <==> !(IsNumber(a) && IsNumber(b))
  {
    match (a, b)
    case (Integer(i1), Integer(i2)) => CheckedInteger(i1 - i2)
    case (Integer(i), Float(f)) => Ok(Float(i as real - f))
    case (Float(f), Integer(i)) => Ok(Float(f - i as real))
    case (Float(f1), Float(f2)) => Ok(Float(f1 - f2))
    case _ => Err(InvalidOperationArguments)
  }

  /** The product of two decimals. */
  function DecimalMul(x: real, y: real): real {
    x * y
  }

  /** `*`: integers multiply in 32 bits, mixed and float pairs as decimals. */
  function MulObjects(a: Object, b: Object): (r: Result<Object>)
    ensures a.Integer? && b.Integer? ==> r == CheckedInteger(a.i * b.i)
    ensures IsNumber(a) && IsNumber(b) && (a.Float? || b.Float?) ==>
      r.Ok? && r.value.Float?
    ensures r == Err(InvalidOperationArguments) <==> !(IsNumber(a) && IsNumber(b))
  {
    match (a, b)
    case (Integer(i1), Integer(i2)) => CheckedInteger(i1 * i2)
    case (Integer(i), Float(f)) => Ok(Float(DecimalMul(f, i as real)))
    case (Float(f), Integer(i)) => Ok(Float(DecimalMul(f, i as real)))
    case (Float(f1), Float(f2)) => Ok(Float(DecimalMul(f1, f2)))
    case _ => Err(InvalidOperationArguments)
  }

  /** Unlike `-` and `/`, the or-pattern is harmless for `*`: a product with a
      float operand is the product of the two numbers, in either order. */
  lemma {:induction false} MulMixedIsProduct(a: Object, b: Object)
    requires IsNumber(a) && IsNumber(b) && (a.Float? || b.Float?)
    ensures MulObjects(a, b) == Ok(Float(DecimalMul(NumericValue(a), NumericValue(b))))
    ensures MulObjects(a, b) == MulObjects(b, a)
  {
  }

  function Abs(x: int): nat {
    if x < 0 then -x else x
  }

  /** Integer division truncating toward zero (Rust's `/` on `i32`). */
  function TruncDiv(a: int, b: int): (q: int)
    requires b != 0
    ensures Abs(q) == Abs(a) / Abs(b)
    ensures q < 0 ==> (a < 0) != (b < 0)
    ensures q > 0 ==> (a < 0) == (b < 0)
  {
    var n: int := Quotient(Abs(a), Abs(b));
    if (a < 0) == (b < 0) then n else -n
  }

  /** Division of naturals, the magnitude of a truncating division. */
  function Quotient(x: nat, y: nat): nat
    requires y > 0
  {
    x / y
  }

  /** The remainder left by a truncating division is smaller than the divisor
      and never has the opposite sign of the dividend. */
  lemma {:induction false} TruncDivRemainder(a: int, b: int)
    requires b != 0
    ensures Abs(a - TruncDiv(a, b) * b) < Abs(b)
    ensures a >= 0 ==> a - TruncDiv(a, b) * b >= 0
    ensures a <= 0 ==> a - TruncDiv(a, b) * b <= 0
  {
    var ab: int, aa: int := Abs(b), Abs(a);
    var q: int := Quotient(aa, ab);
    QuotientRemainder(aa, ab);
    var t := TruncDiv(a, b);
    assert (-q) * ab == -(q * ab) && q * (-ab) == -(q * ab) && (-q) * (-ab) == q * ab;
    if a >= 0 && b > 0 {
      assert t * b == q * ab;
    } else if a >= 0 {
      assert t * b == (-q) * (-ab);
    } else if b > 0 {
      assert t * b == (-q) * ab;
    } else {
      assert t * b == q * (-ab);
    }
  }

  /** The remainder of a division of naturals lies below the divisor. */
  lemma QuotientRemainder(x: nat, y: nat)
    requires y > 0
    ensures 0 <= x - (x / y) * y < y
  {
    assert x == (x / y) * y + x % y;
  }

  /** `i32::checked_div`: no quotient for a zero divisor or for `i32::MIN / -1`. */
  function CheckedDiv(a: I32, b: I32): (r: Option<I32>)
    ensures r.None? <==> b == 0 || (a == I32_MIN && b == -1)
    ensures r.Some? ==> r.value == TruncDiv(a, b)
  {
    if b == 0 || (a == I32_MIN && b == -1) then None
    else
      QuotientInRange(a, b);
      Some(TruncDiv(a, b))
  }

  lemma QuotientInRange(a: I32, b: I32)
    requires b != 0 && !(a == I32_MIN && b == -1)
    ensures InI32(TruncDiv(a, b))
  {
    DivBound(Abs(a), Abs(b));
  }

  lemma DivBound(n: nat, d: nat)
    requires d >= 1
    ensures n / d <= n
    ensures d >= 2 ==> 2 * (n / d) <= n
  {
    var q := n / d;
    var m := n % d;
    assert n == q * d + m;
    var k: nat := d - 1;
    assert q * d == q * k + q;
    if d >= 2 {
      var j: nat := d - 2;
      assert q * d == q * j + 2 * q;
    }
  }

  /** `/` as the source writes it: integers use `checked_div(..).unwrap_or(0)`,
      and the mixed or-pattern computes `f / i` whichever operand is the float. */
  function DivObjectsAsWritten(a: Object, b: Object): (r: Result<Object>)
    ensures a.Integer? && b.Integer? && (b.i == 0 || (a.i == I32_MIN && b.i == -1)) ==>
      r == Ok(Integer(0))
    ensures a.Integer? && b.Integer? && b.i != 0 && !(a.i == I32_MIN && b.i == -1) ==>
      r.Ok? && r.value.Integer? && r.value.i == TruncDiv(a.i, b.i)
    ensures a.Float? && IsNumber(b) ==> r == DecimalDiv(NumericValue(a), NumericValue(b))
    ensures a.Integer? && b.Float? ==> r == DecimalDiv(NumericValue(b), NumericValue(a))
    ensures a.Integer? && b.Float? && a.i != 0 ==> r.Ok? && r.value.f * NumericValue(a) == NumericValue(b)
    ensures a.Integer? && b.Float? && a.i == 0 ==> r == Err(DecimalDivisionByZero)
    ensures r == Err(InvalidOperationArguments) <==> !(IsNumber(a) && IsNumber(b))
  {
    match (a, b)
    case (Integer(i1), Integer(i2)) =>
      var q := CheckedDiv(i1, i2);
      Ok(Integer(if q.Some? then q.value else 0))
    case (Integer(i), Float(f)) => DecimalDiv(f, i as real)
    case (Float(f), Integer(i)) => DecimalDiv(f, i as real)
    case (Float(f1), Float(f2)) => DecimalDiv(f1, f2)
    case _ => Err(InvalidOperationArguments)
  }

  /** A rust_decimal quotient; dividing by zero panics. */
  function DecimalDiv(x: real, y: real): (r: Result<Object>)
    ensures r.Err? <==> y == 0.0
    ensures r.Ok? ==> r.value.Float? && r.value.f * y == x
    ensures r.Err? ==> r.error == DecimalDivisionByZero
  {
    if y == 0.0 then Err(DecimalDivisionByZero) else Ok(Float(x / y))
  }

  /** `/` with the operands kept in order. Integer division by zero, and the one
      quotient that does not fit in 32 bits, give `Integer(0)`. */
  function DivObjects(a: Object, b: Object): (r: Result<Object>)
    ensures a.Integer? && b.Integer? && (b.i == 0 || (a.i == I32_MIN && b.i == -1)) ==>
      r == Ok(Integer(0))
    ensures a.Integer? && b.Integer? && b.i != 0 && !(a.i == I32_MIN && b.i == -1) ==>
      r.Ok? && r.value.Integer? && r.value.i == TruncDiv(a.i, b.i)
    ensures IsNumber(a) && IsNumber(b) && (a.Float? || b.Float?) && NumericValue(b) != 0.0 ==>
      r.Ok? && r.value.Float? && r.value.f * NumericValue(b) == NumericValue(a)
    ensures IsNumber(a) && IsNumber(b) && (a.Float? || b.Float?) && NumericValue(b) == 0.0 ==>
      r == Err(DecimalDivisionByZero)
    ensures r == Err(InvalidOperationArguments) <==> !(IsNumber(a) && IsNumber(b))
  {
    match (a, b)
    case (Integer(i1), Integer(i2)) =>
      var q := CheckedDiv(i1, i2);
      Ok(Integer(if q.Some? then q.value else 0))
    case (Integer(i), Float(f)) => DecimalDiv(i as real, f)
    case (Float(f), Integer(i)) => DecimalDiv(f, i as real)
    case (Float(f1), Float(f2)) => DecimalDiv(f1, f2)
    case _ => Err(InvalidOperationArguments)
  }

  /** The operands' order matters for `-` and `/`, but the source's mixed cases
      ignore it: `1 - 0.5` gives `-0.5` and `2 / 0.5` gives `0.25`. */
  lemma MixedOperandOrderIgnored()
    ensures SubObjectsAsWritten(Integer(1), Float(0.5)) == Ok(Float(-0.5))
    ensures SubObjects(Integer(1), Float(0.5)) == Ok(Float(0.5))
    ensures DivObjectsAsWritten(Integer(2), Float(0.5)) == Ok(Float(0.25))
    ensures DivObjects(Integer(2), Float(0.5)) == Ok(Float(4.0))
  {
  }

  /** In the source's mixed cases the result is `f op i` for both operand
      orders, so swapping the operands of `-` or `/` never changes the result. */
  lemma AsWrittenMixedIsSymmetric(i: I32, f: real)
    ensures SubObjectsAsWritten(Integer(i), Float(f)) == SubObjectsAsWritten(Float(f), Integer(i))
    ensures DivObjectsAsWritten(Integer(i), Float(f)) == DivObjectsAsWritten(Float(f), Integer(i))
  {
  }

  /** Outside the mixed cases the corrected operators agree with the source's. */
  lemma CorrectedAgreesOutsideMixed(a: Object, b: Object)
    requires !(a.Integer? && b.Float?)
    ensures SubObjects(a, b) == SubObjectsAsWritten(a, b)
    ensures DivObjects(a, b) == DivObjectsAsWritten(a, b)
  {
  }

  /** Unary `-`: negates an Integer (in 32 bits) or a Float. */
  function NegObject(v: Object): (r: Result<Object>)
    ensures r.Ok? <==> IsNumber(v) && v != Integer(I32_MIN)
    ensures r.Ok? ==> (r.value.Integer? <==> v.Integer?) && IsNumber(r.value)
    ensures r.Ok? ==> NumericValue(r.value) == -NumericValue(v)
    ensures r.Err? ==> r.error == (if IsNumber(v) then IntegerOverflow else InvalidValueType)
  {
    match v
    case Integer(i) => CheckedInteger(-(i as int))
    case Float(f) => Ok(Float(-f))
    case _ => Err(InvalidValueType)
  }

  /** Unary `not`: only a Boolean has a negation. */
  function NotObject(v: Object): (r: Result<Object>)
    ensures r.Ok? <==> v.Boolean?
    ensures r.Ok? ==> r.value.Boolean? && (Truthy(r.value) <==> !Truthy(v))
    ensures r.Err? ==> r.error == InvalidValueType
  {
    if v.Boolean? then Ok(Boolean(!v.b)) else Err(InvalidValueType)
  }

  /** Negating twice gives the operand back, whenever the first negation
      succeeds; the second one then never overflows. */
  lemma {:induction false} NegIsInvolution(v: Object)
    requires NegObject(v).Ok?
    ensures NegObject(NegObject(v).value) == Ok(v)
  {
    var w := NegObject(v).value;
    assert NumericValue(w) == -NumericValue(v);
    if v.Integer? {
      assert w.i as real == -(v.i as real);
      assert w.i == -v.i;
    }
  }

  /** `not` twice gives a Boolean back. */
  lemma {:induction false} NotIsInvolution(v: Object)
    requires v.Boolean?
    ensures NotObject(NotObject(v).value) == Ok(v)
  {
    var w := NotObject(v).value;
    assert Truthy(w) <==> !Truthy(v);
  }

  //---------------------------------------------------------------------------
  // Truthiness
  //---------------------------------------------------------------------------

  /** `Into<bool>`: a Boolean is its own truth value; every other value is false. */
  function Truthy(o: Object): (t: bool)
    ensures t <==> o == Boolean(true)
  {
    if o.Boolean? then o.b else false
  }

  //---------------------------------------------------------------------------
  // Derived ordering
  //---------------------------------------------------------------------------

  /** The position of the variant in the declaration, which the derived `Ord`
      compares first. */
  function VariantIndex(o: Object): nat {
    match o
    case String(_) => 0
    case Integer(_) => 1
    case Float(_) => 2
    case Boolean(_) => 3
    case NullValue => 4
  }

  function CompareInt(x: int, y: int): int {
    if x < y then -1 else if x == y then 0 else 1
  }

  function CompareReal(x: real, y: real): int {
    if x < y then -1 else if x == y then 0 else 1
  }

  /** Lexicographic order on texts, by character code. */
  function CompareText(s: string, t: string): (c: int)
    ensures -1 <= c <= 1
  {
    if s == [] && t == [] then 0
    else if s == [] then -1
    else if t == [] then 1
    else if s[0] < t[0] then -1
    else if s[0] > t[0] then 1
    else CompareText(s[1..], t[1..])
  }

  /** The derived total order: variants in declaration order, and within a
      variant the payloads' own order (`false < true`; handles by text). */
  function Compare(a: Object, b: Object): (c: int)
    ensures -1 <= c <= 1
    ensures VariantIndex(a) < VariantIndex(b) ==> c == -1
    ensures VariantIndex(a) > VariantIndex(b) ==> c == 1
    ensures a.Integer? && b.Integer? ==> (c < 0 <==> a.i < b.i) && (c > 0 <==> a.i > b.i)
    ensures a.Float? && b.Float? ==> (c < 0 <==> a.f < b.f) && (c > 0 <==> a.f > b.f)
    ensures a.Boolean? && b.Boolean? ==> (c < 0 <==> !a.b && b.b) && (c > 0 <==> a.b && !b.b)
  {
    if VariantIndex(a) != VariantIndex(b) then
      (if VariantIndex(a) < VariantIndex(b) then -1 else 1)
    else
      match (a, b)
      case (String(s), String(t)) => CompareText(s.text, t.text)
      case (Integer(x), Integer(y)) => CompareInt(x, y)
      case (Float(x), Float(y)) => CompareReal(x, y)
      case (Boolean(x), Boolean(y)) => CompareInt(if x then 1 else 0, if y then 1 else 0)
      case _ => 0
  }

  lemma {:induction false} CompareTextReflects(s: string, t: string)
    ensures CompareText(s, t) == 0 <==> s == t
    ensures CompareText(t, s) == -CompareText(s, t)
  {
    if s != [] && t != [] && s[0] == t[0] {
      CompareTextReflects(s[1..], t[1..]);
      assert s == [s[0]] + s[1..] && t == [t[0]] + t[1..];
    }
  }

  lemma {:induction false} CompareTextTransitive(s: string, t: string, u: string)
    requires CompareText(s, t) < 0 && CompareText(t, u) < 0
    ensures CompareText(s, u) < 0
  {
    if s != [] && t != [] && u != [] && s[0] == t[0] && t[0] == u[0] {
      CompareTextTransitive(s[1..], t[1..], u[1..]);
    }
  }

  /** Derived equality and ordering agree, the order is antisymmetric, and it never fails. */
  lemma CompareIsConsistentWithEquality(a: Object, b: Object)
    ensures Compare(a, b) == 0 <==> a == b
    ensures Compare(b, a) == -Compare(a, b)
  {
    if a.String? && b.String? {
      CompareTextReflects(a.sym.text, b.sym.text);
    }
  }

  lemma CompareIsTransitive(a: Object, b: Object, c: Object)
    requires Compare(a, b) < 0 && Compare(b, c) < 0
    ensures Compare(a, c) < 0
  {
    if a.String? && b.String? && c.String? {
      CompareTextTransitive(a.sym.text, b.sym.text, c.sym.text);
    }
  }

  /** An Integer and a Float are never equal, even when they denote the same
      number: the Integer is the smaller of the two. */
  lemma IntegerIsNotFloat(i: I32)
    ensures Integer(i) != Float(i as real)
    ensures Compare(Integer(i), Float(i as real)) == -1
  {
  }

  //---------------------------------------------------------------------------
  // Display
  //---------------------------------------------------------------------------

  function DigitChar(d: nat): char
    requires d < 10
  {
    "0123456789"[d]
  }

  /** The decimal digits of `n`. */
  function NatText(n: nat): (s: string)
    ensures |s| >= 1
    ensures forall k :: 0 <= k < |s| ==> '0' <= s[k] <= '9'
    ensures |s| > 1 ==> s[0] != '0'
  {
    if n < 10 then [DigitChar(n)] else NatText(n / 10) + [DigitChar(n % 10)]
  }

  /** `{i}` of a Rust integer: a minus sign for negatives, then the digits. */
  function IntText(i: int): (s: string)
    ensures s != [] && (s[0] == '-' || '0' <= s[0] <= '9')
    ensures forall k :: 1 <= k < |s| ==> '0' <= s[k] <= '9'
  {
    if i < 0 then "-" + NatText(-i) else NatText(i)
  }

  /** Reading decimal digits back (the partner of `NatText`). */
  function DigitsValue(s: string): nat
    requires forall k :: 0 <= k < |s| ==> '0' <= s[k] <= '9'
  {
    if s == [] then 0 else DigitsValue(s[..|s| - 1]) * 10 + (s[|s| - 1] as int - '0' as int)
  }

  function TextValue(s: string): int
    requires s != [] ==> s[0] == '-' || '0' <= s[0] <= '9'
    requires forall k :: 1 <= k < |s| ==> '0' <= s[k] <= '9'
  {
    if s != [] && s[0] == '-' then -(DigitsValue(s[1..]) as int) else DigitsValue(s)
  }

  lemma {:induction false} NatTextRoundTrip(n: nat)
    ensures DigitsValue(NatText(n)) == n
  {
    if n >= 10 {
      NatTextRoundTrip(n / 10);
      var s := NatText(n);
      assert s[..|s| - 1] == NatText(n / 10);
    }
  }

  /** The printed form of an integer reads back as the same integer. */
  lemma IntTextRoundTrip(i: int)
    ensures TextValue(IntText(i)) == i
  {
    if i < 0 {
      NatTextRoundTrip(-i);
      assert IntText(i)[1..] == NatText(-i);
    } else {
      NatTextRoundTrip(i);
    }
  }

  /** `Display`. The text of a decimal is rust_decimal's, supplied as
      `floatText`; it depends on the decimal's scale of trailing zeros, which
      `Float` does not keep, so for a Float this is not the printed text. */
  function Display(o: Object, floatText: real -> string): (s: string)
    ensures o == Boolean(true) ==> s == "true"
    ensures o == Boolean(false) ==> s == "false"
    ensures o.NullValue? ==> s == "null"
    ensures o.String? ==> s == Resolve(o.sym)
    ensures o.Integer? ==> s == IntText(o.i) && TextValue(s) == o.i
  {
    match o
    case String(h) => Resolve(h)
    case Integer(i) => IntTextRoundTrip(i); IntText(i)
    case Float(f) => floatText(f)
    case Boolean(b) => if b then "true" else "false"
    case NullValue => "null"
  }
}
