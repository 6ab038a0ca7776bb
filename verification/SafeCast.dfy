/** Checked conversions between two's-complement integer types, for every width and signedness. */
module SafeCasts {
  datatype IntTypeDesc = IntTypeDesc(bits: nat, signed: bool)

  /** A fixed-width integer type. */
  type IntType = t: IntTypeDesc | t.bits > 0 witness IntTypeDesc(64, true)

  function Pow2(n: nat): (r: nat)
    ensures r > 0
  {
    if n == 0 then 1 else 2 * Pow2(n - 1)
  }

  /** The values of a type, stated without its operators. */
  function Lo(t: IntType): int {
    if t.signed then 0 - Pow2(t.bits - 1) else 0
  }

  function Hi(t: IntType): int {
    if t.signed then Pow2(t.bits - 1) - 1 else Pow2(t.bits) - 1
  }

  predicate In(v: int, t: IntType) {
    Lo(t) <= v <= Hi(t)
  }

  /** Conversion to the type: keep the low bits, and read the top one as the sign if there is one. */
  function Convert(t: IntType, v: int): int {
    var r := v % Pow2(t.bits);
    if t.signed && r >= Pow2(t.bits - 1) then r - Pow2(t.bits) else r
  }

  // ---------- The type's own operators, as the source uses them ----------

  function Not(t: IntType, x: int): int {
    Convert(t, -1 - x)
  }

  function ShiftLeft(t: IntType, x: int, n: nat): int {
    Convert(t, x * Pow2(n))
  }

  predicate Signed(t: IntType) {
    Not(t, 0) < 0
  }

  function Min(t: IntType): int {
    if Signed(t) then ShiftLeft(t, 1, t.bits - 1) else 0
  }

  function Max(t: IntType): int {
    Not(t, Min(t))
  }

  function SafeCast(to: IntType, from: IntType, v: int): (int, bool) {
    var x := Convert(to, v);
    (x, Convert(from, x) == v && (x < 0 <==> v < 0))
  }

  function Clamp(to: IntType, from: IntType, v: int): int {
    var (x, ok) := SafeCast(to, from, v);
    if ok then x else if v >= 0 then Max(to) else Min(to)
  }

  // ---------- Theorems ----------

  lemma MultipleInRange(k: int, m: int)
    requires m > 0 && -m < k * m < m
    ensures k == 0
  {
    assert k >= 1 ==> k * m >= m;
    assert k <= -1 ==> k * m <= -m;
  }

  lemma ConvertIs(t: IntType, v: int) returns (k: int)
    ensures Convert(t, v) == v + k * Pow2(t.bits) && In(Convert(t, v), t)
  {
    var m := Pow2(t.bits);
    assert m == 2 * Pow2(t.bits - 1);
    var q := v / m;
    assert v == q * m + v % m;
    k := if t.signed && v % m >= Pow2(t.bits - 1) then -q - 1 else -q;
    assert (-q - 1) * m == -(q * m) - m && (-q) * m == -(q * m);
  }

  /** A value of the type that differs by a multiple of 2^bits is the conversion. */
  lemma ConvertUnique(t: IntType, v: int, w: int, j: int)
    requires In(w, t) && w == v + j * Pow2(t.bits)
    ensures Convert(t, v) == w
  {
    var k := ConvertIs(t, v);
    assert Pow2(t.bits) == 2 * Pow2(t.bits - 1);
    assert (k - j) * Pow2(t.bits) == k * Pow2(t.bits) - j * Pow2(t.bits);
    MultipleInRange(k - j, Pow2(t.bits));
  }

  lemma ConvertIdentity(t: IntType, v: int)
    requires In(v, t)
    ensures Convert(t, v) == v
  {
    ConvertUnique(t, v, v, 0);
  }

  /** Min and Max, computed with the type's operators, are the type's least and greatest values. */
  lemma MinMax(t: IntType)
    ensures Signed(t) <==> t.signed
    ensures Min(t) == Lo(t) && Max(t) == Hi(t)
  {
    assert Pow2(t.bits) == 2 * Pow2(t.bits - 1);
    if t.signed {
      ConvertUnique(t, -1, -1, 0);
      ConvertUnique(t, 1 * Pow2(t.bits - 1), Lo(t), -1);
      ConvertUnique(t, -1 - Lo(t), Hi(t), 0);
    } else {
      ConvertUnique(t, -1, Hi(t), 1);
    }
  }

  lemma Congruent(t: IntType, other: IntType, v: int, x: int)
    requires In(v, other) && In(x, t) && (x < 0 <==> v < 0) && other.bits <= t.bits
    requires exists k: int :: x == v + k * Pow2(t.bits)
    ensures x == v
  {
    var k :| x == v + k * Pow2(t.bits);
    Pow2Monotone(other.bits, t.bits);
    assert Pow2(t.bits) == 2 * Pow2(t.bits - 1) && Pow2(other.bits) == 2 * Pow2(other.bits - 1);
    MultipleInRange(k, Pow2(t.bits));
  }

  lemma {:induction false} Pow2Monotone(a: nat, b: nat)
    requires a <= b
    ensures Pow2(a) <= Pow2(b)
  {
    if a < b {
      Pow2Monotone(a, b - 1);
    }
  }

  /** A cast succeeds exactly when the target type has the value, and then returns it unchanged. */
  lemma SafeCastExact(to: IntType, from: IntType, v: int)
    requires In(v, from)
    ensures var (x, ok) := SafeCast(to, from, v);
            In(x, to) && (ok <==> In(v, to)) && (ok ==> x == v)
  {
    var (x, ok) := SafeCast(to, from, v);
    var k := ConvertIs(to, v);
    if In(v, to) {
      ConvertIdentity(to, v);
      ConvertIdentity(from, v);
    }
    if ok {
      if from.bits <= to.bits {
        Congruent(to, from, v, x);
      } else {
        var j := ConvertIs(from, x);
        assert v == x + j * Pow2(from.bits);
        Congruent(from, to, x, v);
      }
    }
  }

  function Abs(x: int): int {
    if x < 0 then -x else x
  }

  /** Clamp returns the value of the target type that is nearest to the argument. */
  lemma ClampNearest(to: IntType, from: IntType, v: int)
    requires In(v, from)
    ensures In(Clamp(to, from, v), to)
    ensures forall y | In(y, to) :: Abs(Clamp(to, from, v) - v) <= Abs(y - v)
  {
    SafeCastExact(to, from, v);
    MinMax(to);
  }
}
