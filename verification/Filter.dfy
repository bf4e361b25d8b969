/** Tier-1 predicates over attribute rows, and the order PostgreSQL compares by. */
module Filter {
  import opened Base

  datatype Ordering = Less | Equal | Greater

  function Compare(a: int, b: int): Ordering { if a < b then Less else if a == b then Equal else Greater }

  const SIGN: u64 := 0x8000_0000_0000_0000
  const INFINITY: u64 := 0x7FF0_0000_0000_0000

  function Magnitude(f: u64): int { f % SIGN }

  predicate IsNan(f: u64) { Magnitude(f) > INFINITY }

  /** IEEE 754 comparison of two non-NaN patterns is comparison of sign-magnitude integers. */
  function Signed(f: u64): int { if f >= SIGN then -Magnitude(f) else Magnitude(f) }

  function PartialCmp(a: u64, b: u64): Option<Ordering> {
    if IsNan(a) || IsNan(b) then None else Some(Compare(Signed(a), Signed(b)))
  }

  function PgFloatCmp(a: u64, b: u64): Ordering {
    match PartialCmp(a, b)
    case Some(ord) => ord
    case None => if IsNan(a) && IsNan(b) then Equal else if IsNan(a) then Greater else Less
  }

  function NumCmp(a: AttrValue, b: AttrValue): Option<Ordering> {
    match (a, b)
    case (Int(x), Int(y)) => Some(Compare(x, y))
    case (Float(x), Float(y)) => Some(PgFloatCmp(x, y))
    case (_, _) => None
  }

  predicate EqMatches(value: AttrValue, target: AttrValue) {
    match (value, target)
    case (Int(x), Int(y)) => x == y
    case (Float(x), Float(y)) => PgFloatCmp(x, y) == Equal
    case (_, _) => false
  }

  datatype Bound = Unbounded | Included(value: AttrValue) | Excluded(value: AttrValue)

  predicate LowerMatches(value: AttrValue, lo: Bound) {
    match lo
    case Unbounded => true
    case Included(b) => NumCmp(value, b) == Some(Greater) || NumCmp(value, b) == Some(Equal)
    case Excluded(b) => NumCmp(value, b) == Some(Greater)
  }

  predicate UpperMatches(value: AttrValue, hi: Bound) {
    match hi
    case Unbounded => true
    case Included(b) => NumCmp(value, b) == Some(Less) || NumCmp(value, b) == Some(Equal)
    case Excluded(b) => NumCmp(value, b) == Some(Less)
  }

  datatype Atom = Eq(col: nat, target: AttrValue) | Range(col: nat, lo: Bound, hi: Bound)

  predicate AtomMatches(a: Atom, row: Attrs) {
    a.col < |row| &&
    match a
    case Eq(col, target) => EqMatches(row[col], target)
    case Range(col, lo, hi) => !row[col].Null? && LowerMatches(row[col], lo) && UpperMatches(row[col], hi)
  }

  datatype Predicate = All | And(atoms: seq<Atom>)

  predicate Matches(p: Predicate, row: Attrs) {
    match p
    case All => true
    case And(atoms) => forall i :: 0 <= i < |atoms| ==> AtomMatches(atoms[i], row)
  }

  // --- what a pattern means --------------------------------------------------------

  function Pow2(n: nat): (r: nat)
    ensures r > 0
  {
    if n == 0 then 1 else 2 * Pow2(n - 1)
  }

  const HIDDEN_BIT: nat := 0x10_0000_0000_0000
  const TOP_EXPONENT: nat := 0x7FF

  /** The three fields of a double: one bit, eleven and fifty-two. */
  predicate Negative(f: u64) { f / 0x8000_0000_0000_0000 == 1 }

  function ExponentField(f: u64): nat { f / HIDDEN_BIT % 0x800 }

  function MantissaField(f: u64): nat { f % HIDDEN_BIT }

  /** A finite pattern's size in units of 2^-1074, the least positive double. */
  function Units(exponent: nat, mantissa: nat): nat {
    if exponent == 0 then mantissa else (HIDDEN_BIT + mantissa) * Pow2(exponent - 1)
  }

  /** The number a finite pattern stands for. */
  function Value(f: u64): real {
    var size: int := Units(ExponentField(f), MantissaField(f));
    (if Negative(f) then -size else size) as real / Pow2(1074) as real
  }

  /** Minus infinity, the finite numbers, infinity and every NaN. */
  function Class(f: u64): int {
    if ExponentField(f) < TOP_EXPONENT then 0
    else if MantissaField(f) != 0 then 2
    else if Negative(f) then -1 else 1
  }

  function CompareReals(a: real, b: real): Ordering { if a < b then Less else if a == b then Equal else Greater }

  /** SQL's order of floats: by class, and finite numbers by value. */
  function SqlOrder(a: u64, b: u64): Ordering {
    if Class(a) != Class(b) then Compare(Class(a), Class(b))
    else if Class(a) == 0 then CompareReals(Value(a), Value(b)) else Equal
  }

  lemma Fields(f: u64)
    ensures Magnitude(f) == HIDDEN_BIT * ExponentField(f) + MantissaField(f)
    ensures ExponentField(f) <= TOP_EXPONENT && MantissaField(f) < HIDDEN_BIT
    ensures IsNan(f) <==> Class(f) == 2
    ensures Negative(f) <==> f >= SIGN
  {
    var high := f / HIDDEN_BIT;
    assert f == HIDDEN_BIT * high + MantissaField(f);
    assert high == 0x800 * (high / 0x800) + ExponentField(f);
  }

  lemma {:induction false} Pow2Grows(a: nat, b: nat)
    requires a <= b
    ensures Pow2(a) <= Pow2(b)
  {
    if a < b { Pow2Grows(a, b - 1); }
  }

  /** A larger exponent outweighs any mantissa. */
  lemma UnitsByExponent(e: nat, m: nat, e': nat, m': nat)
    requires e < e' && m < HIDDEN_BIT
    ensures Units(e, m) < Units(e', m')
  {
    Pow2Grows(e, e' - 1);
    var top := Pow2(e' - 1);
    assert Units(e', m') == HIDDEN_BIT * top + m' * top && m' * top >= 0;
    assert HIDDEN_BIT * Pow2(e) <= HIDDEN_BIT * top;
    if e > 0 {
      assert Pow2(e) == 2 * Pow2(e - 1);
      Times(HIDDEN_BIT + m, 2 * HIDDEN_BIT, Pow2(e - 1));
    }
  }

  lemma Times(a: nat, b: nat, c: nat)
    requires a < b && c > 0
    ensures a * c < b * c
  {
  }

  lemma UnitsByMantissa(e: nat, m: nat, m': nat)
    requires m < m'
    ensures Units(e, m) < Units(e, m')
  {
    if e > 0 { Times(HIDDEN_BIT + m, HIDDEN_BIT + m', Pow2(e - 1)); }
  }

  lemma UnitsGrow(a: u64, b: u64)
    requires Magnitude(a) < Magnitude(b)
    ensures Units(ExponentField(a), MantissaField(a)) < Units(ExponentField(b), MantissaField(b))
  {
    hide Units;
    Fields(a);
    Fields(b);
    if ExponentField(a) < ExponentField(b) {
      UnitsByExponent(ExponentField(a), MantissaField(a), ExponentField(b), MantissaField(b));
    } else {
      UnitsByMantissa(ExponentField(a), MantissaField(a), MantissaField(b));
    }
  }

  lemma UnitsSame(a: u64, b: u64)
    requires Magnitude(a) == Magnitude(b)
    ensures Units(ExponentField(a), MantissaField(a)) == Units(ExponentField(b), MantissaField(b))
  {
    Fields(a);
    Fields(b);
  }

  lemma UnitsPositive(a: u64)
    ensures Units(ExponentField(a), MantissaField(a)) == 0 <==> Magnitude(a) == 0
  {
    Fields(a);
    if ExponentField(a) > 0 { Times(0, HIDDEN_BIT + MantissaField(a), Pow2(ExponentField(a) - 1)); }
  }

  lemma Scaled(x: int, y: int, d: nat)
    requires d > 0
    ensures CompareReals(x as real / d as real, y as real / d as real) == Compare(x, y)
  {
    var a, b, r := x as real, y as real, d as real;
    assert a / r * r == a && b / r * r == b;
  }

  /** Comparing finite patterns as sign-magnitude integers compares the numbers they stand for. */
  lemma FiniteOrder(a: u64, b: u64)
    requires Class(a) == 0 && Class(b) == 0
    ensures Compare(Signed(a), Signed(b)) == CompareReals(Value(a), Value(b))
  {
    hide Units, Pow2;
    var x: int, y: int := Units(ExponentField(a), MantissaField(a)), Units(ExponentField(b), MantissaField(b));
    Fields(a);
    Fields(b);
    UnitsPositive(a);
    UnitsPositive(b);
    if Magnitude(a) < Magnitude(b) { UnitsGrow(a, b); }
    else if Magnitude(b) < Magnitude(a) { UnitsGrow(b, a); }
    else { UnitsSame(a, b); }
    Scaled(if Negative(a) then -x else x, if Negative(b) then -y else y, Pow2(1074));
  }

  /** Where a float stands in that order: every NaN in one place above infinity, both zeros in one place. */
  function Rank(f: u64): int { if IsNan(f) then SIGN else Signed(f) }

  /** The comparison is SQL's, finite numbers by value, and a total preorder, with NaN above everything and -0.0 equal
      to 0.0. */
  lemma FloatOrder(a: u64, b: u64)
    ensures PgFloatCmp(a, b) == SqlOrder(a, b)
    ensures PgFloatCmp(a, b) == Compare(Rank(a), Rank(b))
    ensures IsNan(a) && !IsNan(b) ==> PgFloatCmp(a, b) == Greater
    ensures IsNan(a) && IsNan(b) ==> PgFloatCmp(a, b) == Equal
    ensures PgFloatCmp(SIGN, 0) == Equal
  {
    hide Value;
    assert !IsNan(b) ==> Rank(b) < SIGN;
    assert !IsNan(a) ==> Rank(a) < SIGN;
    Fields(a);
    Fields(b);
    if Class(a) == 0 && Class(b) == 0 { FiniteOrder(a, b); }
  }

  /** The other sign. */
  function Negated(f: u64): u64 { if Negative(f) then f - SIGN else f + SIGN }

  lemma NegatedIs(f: u64)
    ensures Magnitude(Negated(f)) == Magnitude(f) && Signed(Negated(f)) == -Signed(f)
  {
  }

  /** A negative nonzero number is below every positive one, and changing both signs reverses the answer. */
  lemma SignsOrder(a: u64, b: u64)
    requires !IsNan(a) && !IsNan(b)
    ensures Negative(a) && !Negative(b) && Magnitude(a) + Magnitude(b) > 0 ==> PgFloatCmp(a, b) == Less
    ensures PgFloatCmp(Negated(a), Negated(b)) == PgFloatCmp(b, a)
  {
    hide Negated;
    Fields(a);
    Fields(b);
    NegatedIs(a);
    NegatedIs(b);
  }

  // --- what SQL means ------------------------------------------------------------

  const LT: nat := 1
  const LE: nat := 2
  const EQ: nat := 3
  const GE: nat := 4
  const GT: nat := 5

  /** B-tree strategy numbers: 1 to 5 are <, <=, =, >= and >. */
  predicate Holds(strategy: nat, ord: Ordering) {
    (strategy == 1 && ord == Less) || (strategy == 2 && ord != Greater) || (strategy == 3 && ord == Equal)
    || (strategy == 4 && ord != Less) || (strategy == 5 && ord == Greater)
  }

  /** `value op target` is true in SQL: NULL never is, and each family compares by its own order. */
  predicate SqlTrue(value: AttrValue, strategy: nat, target: AttrValue) {
    match (value, target)
    case (Int(x), Int(y)) => Holds(strategy, Compare(x, y))
    case (Float(x), Float(y)) => Holds(strategy, SqlOrder(x, y))
    case (_, _) => false
  }

  function AtomFor(col: nat, strategy: nat, value: AttrValue): Option<Atom> {
    if strategy == EQ then Some(Eq(col, value))
    else if strategy == LT then Some(Range(col, Unbounded, Excluded(value)))
    else if strategy == LE then Some(Range(col, Unbounded, Included(value)))
    else if strategy == GT then Some(Range(col, Excluded(value), Unbounded))
    else if strategy == GE then Some(Range(col, Included(value), Unbounded))
    else None
  }

  /** Traversal tests exactly the comparison the query wrote. */
  lemma AtomIsComparison(col: nat, strategy: nat, value: AttrValue, row: Attrs)
    requires AtomFor(col, strategy, value).Some? && col < |row|
    ensures AtomMatches(AtomFor(col, strategy, value).value, row) <==> SqlTrue(row[col], strategy, value)
  {
    match (row[col], value) {
      case (Float(x), Float(y)) => FloatOrder(x, y);
      case (_, _) =>
    }
  }
}
