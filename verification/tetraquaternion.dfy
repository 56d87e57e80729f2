/**
 * The tetraquaternion algebra of src/math/tetraquaternion.rs.
 *
 * A basis element is a pair (small, large) of quaternion units: the small
 * unit is one of 1, i, j, k and the large one one of 1, I, J, K. Pairs
 * multiply componentwise, each component by the quaternion rule, and the two
 * signs multiply. The fifteen pairs other than (1, 1) are listed in `Basis`;
 * a tetraquaternion has sixteen real coefficients, coefficient 0 for the real
 * unit and coefficient `n + 1` for `Basis[n]`.
 */
module Tetra {

  import opened RealMath

  /** A quaternion unit: the real unit R or one of the imaginary units I, J, K. */
  datatype QuatComp = R | I | J | K

  /** A quaternion unit with a sign of +1 or -1. */
  datatype Signed = Signed(sign: int, comp: QuatComp)

  /** The product of two quaternion units. */
  function QuatMul(a: QuatComp, b: QuatComp): (r: Signed)
    ensures r.sign == 1 || r.sign == -1
    ensures a == R ==> r == Signed(1, b)
    ensures b == R ==> r == Signed(1, a)
    ensures r.comp == R <==> a == b
    ensures a != R && a == b ==> r.sign == -1
    ensures a != R && b != R && a != b ==> r.comp != R && r.comp != a && r.comp != b
  {
    match (a, b)
    case (R, x) => Signed(1, x)
    case (x, R) => Signed(1, x)
    case (I, I) => Signed(-1, R)
    case (I, J) => Signed(1, K)
    case (I, K) => Signed(-1, J)
    case (J, I) => Signed(-1, K)
    case (J, J) => Signed(-1, R)
    case (J, K) => Signed(1, I)
    case (K, I) => Signed(1, J)
    case (K, J) => Signed(-1, I)
    case (K, K) => Signed(-1, R)
  }

  /** Distinct imaginary units anticommute, and I, J, K multiply cyclically. */
  lemma QuatMulAnticommutes(a: QuatComp, b: QuatComp)
    requires a != R && b != R && a != b
    ensures QuatMul(b, a) == Signed(-QuatMul(a, b).sign, QuatMul(a, b).comp)
    ensures QuatMul(I, J) == Signed(1, K)
    ensures QuatMul(J, K) == Signed(1, I)
    ensures QuatMul(K, I) == Signed(1, J)
  {
  }

  /** A basis element: a small unit (1, i, j, k) paired with a large one (1, I, J, K). */
  datatype UnitPair = UnitPair(small: QuatComp, large: QuatComp)

  /** Number of non-real basis elements. */
  const BasisCount: nat := 15

  /** Number of coefficients of a tetraquaternion. */
  const Dim: nat := 16

  /** The fifteen non-real basis elements, in coefficient order. */
  const Basis: seq<UnitPair> := [
    UnitPair(J, R),  // 0: j
    UnitPair(K, I),  // 1: kI
    UnitPair(K, J),  // 2: kJ
    UnitPair(K, K),  // 3: kK
    UnitPair(I, I),  // 4: iI
    UnitPair(I, J),  // 5: iJ
    UnitPair(I, K),  // 6: iK
    UnitPair(R, I),  // 7: I
    UnitPair(R, J),  // 8: J
    UnitPair(R, K),  // 9: K
    UnitPair(K, R),  // 10: k
    UnitPair(J, I),  // 11: jI
    UnitPair(J, J),  // 12: jJ
    UnitPair(J, K),  // 13: jK
    UnitPair(I, R)   // 14: i
  ]

  /** The position of a non-real pair in `Basis`; the real pair (R, R) has none. */
  function BasisIndex(p: UnitPair): (n: nat)
    requires p != UnitPair(R, R)
    ensures n < BasisCount && Basis[n] == p
  {
    match p
    case UnitPair(J, R) => 0
    case UnitPair(K, I) => 1
    case UnitPair(K, J) => 2
    case UnitPair(K, K) => 3
    case UnitPair(I, I) => 4
    case UnitPair(I, J) => 5
    case UnitPair(I, K) => 6
    case UnitPair(R, I) => 7
    case UnitPair(R, J) => 8
    case UnitPair(R, K) => 9
    case UnitPair(K, R) => 10
    case UnitPair(J, I) => 11
    case UnitPair(J, J) => 12
    case UnitPair(J, K) => 13
    case UnitPair(I, R) => 14
  }

  /** `BasisIndex` undoes indexing into `Basis`, so no pair is listed twice. */
  lemma BasisIndexInvertsBasis(n: nat)
    requires n < BasisCount
    ensures Basis[n] != UnitPair(R, R)
    ensures BasisIndex(Basis[n]) == n
  {
  }

  lemma BasisInjective(m: nat, n: nat)
    requires m < BasisCount && n < BasisCount
    requires Basis[m] == Basis[n]
    ensures m == n
  {
    BasisIndexInvertsBasis(m);
    BasisIndexInvertsBasis(n);
  }

  /**
   * One entry of the multiplication table: the sign of the product and the
   * coefficient it lands on (0 for the real unit, `BasisIndex + 1` otherwise).
   */
  datatype Entry = Entry(sign: int, out: nat)

  /** The product of `Basis[left]` and `Basis[right]`. */
  function MulEntry(left: nat, right: nat): (e: Entry)
    requires left < BasisCount && right < BasisCount
    ensures e.sign == 1 || e.sign == -1
    ensures e.out < Dim
    ensures e.out == 0 <==> left == right
  {
    var l := Basis[left];
    var r := Basis[right];
    var s := QuatMul(l.small, r.small);
    var g := QuatMul(l.large, r.large);
    if s.comp == R && g.comp == R then
      BasisInjective(left, right);
      Entry(s.sign * g.sign, 0)
    else
      Entry(s.sign * g.sign, BasisIndex(UnitPair(s.comp, g.comp)) + 1)
  }

  /**
   * Builds the table row by row, as the constant initialiser does; entry
   * `[left][right]` is `MulEntry(left, right)`.
   */
  method ComputeMulTable() returns (table: seq<seq<Entry>>)
    ensures |table| == BasisCount
    ensures forall left :: 0 <= left < BasisCount ==> |table[left]| == BasisCount
    ensures forall left, right :: 0 <= left < BasisCount && 0 <= right < BasisCount ==>
      table[left][right] == MulEntry(left, right)
    ensures table == MulTable()
  {
    table := [];
    var left := 0;
    while left < BasisCount
      invariant 0 <= left <= BasisCount
      invariant |table| == left
      invariant forall l :: 0 <= l < left ==> |table[l]| == BasisCount
      invariant forall l, r :: 0 <= l < left && 0 <= r < BasisCount ==> table[l][r] == MulEntry(l, r)
    {
      var row: seq<Entry> := [];
      var right := 0;
      while right < BasisCount
        invariant 0 <= right <= BasisCount
        invariant |row| == right
        invariant forall r :: 0 <= r < right ==> row[r] == MulEntry(left, r)
      {
        var l := Basis[left];
        var r := Basis[right];
        var s := QuatMul(l.small, r.small);
        var g := QuatMul(l.large, r.large);
        var sign := s.sign * g.sign;
        var out;
        if s.comp == R && g.comp == R {
          out := Entry(sign, 0);
        } else {
          out := Entry(sign, BasisIndex(UnitPair(s.comp, g.comp)) + 1);
        }
        assert out == MulEntry(left, right);
        row := row + [out];
        right := right + 1;
      }
      table := table + [row];
      left := left + 1;
    }
    TableEqualsMulTable(table);
  }

  /**
   * The entries the repository's tests pin down. An entry's `out` is a
   * coefficient index, so `out` n names `Basis[n - 1]` (11 is k, 10 is K).
   */
  lemma MulTablePinnedEntries()
    ensures MulEntry(0, 0) == Entry(-1, 0)     // j  * j  = -1
    ensures MulEntry(0, 1) == Entry(1, 5)      // j  * kI = +iI
    ensures MulEntry(1, 2) == Entry(-1, 10)    // kI * kJ = -K
    ensures MulEntry(4, 5) == Entry(-1, 10)    // iI * iJ = -K
    ensures MulEntry(7, 8) == Entry(1, 10)     // I  * J  = +K
    ensures MulEntry(10, 14) == Entry(1, 1)    // k  * i  = +j
    ensures MulEntry(11, 12) == Entry(-1, 10)  // jI * jJ = -K
    ensures MulEntry(14, 14) == Entry(-1, 0)   // i  * i  = -1
    ensures MulEntry(0, 14) == Entry(-1, 11)   // j  * i  = -k
    ensures MulEntry(14, 0) == Entry(1, 11)    // i  * j  = +k
  {
  }

  /**
   * A basis element squares to the real unit; the sign is +1 when both of its
   * units are imaginary and -1 when one of them is real.
   */
  lemma BasisSquares(n: nat)
    requires n < BasisCount
    ensures MulEntry(n, n).out == 0
    ensures MulEntry(n, n).sign == (if Basis[n].small != R && Basis[n].large != R then 1 else -1)
  {
  }

  /** Sixteen real coefficients. */
  type Coeffs = s: seq<real> | |s| == 16 witness seq(16, k => 0.0)

  /** An element of the algebra. */
  datatype TetraQuaternion = TetraQuaternion(coeffs: Coeffs)

  /** The element with `value` at coefficient `k` and zero elsewhere. */
  function Unit(k: nat, value: real): (q: TetraQuaternion)
    requires k < Dim
  {
    TetraQuaternion(seq(Dim, n => if n == k then value else 0.0))
  }

  /** `TetraQuaternion::new`: the real part, then the fifteen basis coefficients. */
  function New(realPart: real, bases: seq<real>): (q: TetraQuaternion)
    requires |bases| == BasisCount
    ensures q.coeffs[0] == realPart
    ensures forall n :: 0 <= n < BasisCount ==> q.coeffs[n + 1] == bases[n]
  {
    TetraQuaternion([realPart] + bases)
  }

  /** `TetraQuaternion::one`, the real unit. */
  function One(): (q: TetraQuaternion)
    ensures q == Unit(0, 1.0)
  {
    TetraQuaternion(seq(Dim, n => if n == 0 then 1.0 else 0.0))
  }

  /** `TetraQuaternion::basis`; an index of 15 or more panics in the source. */
  function BasisElement(index: nat): (q: TetraQuaternion)
    requires index < BasisCount
    ensures q.coeffs[index + 1] == 1.0
    ensures forall n :: 0 <= n < Dim && n != index + 1 ==> q.coeffs[n] == 0.0
  {
    TetraQuaternion(seq(Dim, n => if n == index + 1 then 1.0 else 0.0))
  }

  function Add(a: TetraQuaternion, b: TetraQuaternion): (r: TetraQuaternion)
    ensures forall n :: 0 <= n < Dim ==> r.coeffs[n] == a.coeffs[n] + b.coeffs[n]
  {
    TetraQuaternion(seq(Dim, n requires 0 <= n < Dim => a.coeffs[n] + b.coeffs[n]))
  }

  function Sub(a: TetraQuaternion, b: TetraQuaternion): (r: TetraQuaternion)
    ensures forall n :: 0 <= n < Dim ==> r.coeffs[n] == a.coeffs[n] - b.coeffs[n]
  {
    TetraQuaternion(seq(Dim, n requires 0 <= n < Dim => a.coeffs[n] - b.coeffs[n]))
  }

  /** Subtraction undoes addition, and addition does not depend on operand order. */
  lemma AddSubInverse(a: TetraQuaternion, b: TetraQuaternion)
    ensures Sub(Add(a, b), b) == a
    ensures Add(Sub(a, b), b) == a
    ensures Add(a, b) == Add(b, a)
  {
    assert Sub(Add(a, b), b).coeffs == a.coeffs;
    assert Add(Sub(a, b), b).coeffs == a.coeffs;
    assert Add(a, b).coeffs == Add(b, a).coeffs;
  }

  /** `AddAssign`: adds `rhs` into `self` one coefficient at a time. */
  method AddAssign(self: TetraQuaternion, rhs: TetraQuaternion) returns (r: TetraQuaternion)
    ensures r == Add(self, rhs)
  {
    var c: seq<real> := self.coeffs;
    var n := 0;
    while n < Dim
      invariant 0 <= n <= Dim
      invariant |c| == Dim
      invariant forall k :: 0 <= k < n ==> c[k] == self.coeffs[k] + rhs.coeffs[k]
      invariant forall k :: n <= k < Dim ==> c[k] == self.coeffs[k]
    {
      c := c[n := c[n] + rhs.coeffs[n]];
      n := n + 1;
    }
    r := TetraQuaternion(c);
    assert r.coeffs == Add(self, rhs).coeffs;
  }

  /** `SubAssign`: subtracts `rhs` from `self` one coefficient at a time. */
  method SubAssign(self: TetraQuaternion, rhs: TetraQuaternion) returns (r: TetraQuaternion)
    ensures r == Sub(self, rhs)
  {
    var c: seq<real> := self.coeffs;
    var n := 0;
    while n < Dim
      invariant 0 <= n <= Dim
      invariant |c| == Dim
      invariant forall k :: 0 <= k < n ==> c[k] == self.coeffs[k] - rhs.coeffs[k]
      invariant forall k :: n <= k < Dim ==> c[k] == self.coeffs[k]
    {
      c := c[n := c[n] - rhs.coeffs[n]];
      n := n + 1;
    }
    r := TetraQuaternion(c);
    assert r.coeffs == Sub(self, rhs).coeffs;
  }

  /**
   * The terms of the product that involve a real coefficient: the real parts
   * multiply, and each basis coefficient is scaled by the other operand's real part.
   */
  function ScalarTerms(a: Coeffs, b: Coeffs): Coeffs {
    seq(Dim, n requires 0 <= n < Dim =>
      if n == 0 then a[0] * b[0] else a[0] * b[n] + a[n] * b[0])
  }

  /** The constant `MUL_TABLE`: row `left`, column `right`. */
  function MulTable(): (t: seq<seq<Entry>>)
    ensures WellFormedTable(t)
    ensures forall l, r :: 0 <= l < 15 && 0 <= r < 15 ==> t[l][r] == MulEntry(l, r)
  {
    seq(15, left requires 0 <= left < 15 =>
      seq(15, right requires 0 <= right < 15 => MulEntry(left, right)))
  }

  /** A 15 by 15 table whose entries name coefficients that exist. */
  ghost predicate WellFormedTable(t: seq<seq<Entry>>) {
    && |t| == 15
    && (forall l :: 0 <= l < 15 ==> |t[l]| == 15)
    && (forall l, r :: 0 <= l < 15 && 0 <= r < 15 ==> t[l][r].out < Dim)
  }


  /** A table that agrees with `MulEntry` everywhere is `MUL_TABLE`. */
  lemma TableEqualsMulTable(t: seq<seq<Entry>>)
    requires |t| == 15
    requires forall l :: 0 <= l < 15 ==> |t[l]| == 15
    requires forall l, r :: 0 <= l < 15 && 0 <= r < 15 ==> t[l][r] == MulEntry(l, r)
    ensures t == MulTable()
  {
    forall l | 0 <= l < 15
      ensures t[l] == MulTable()[l]
    {
      assert forall r :: 0 <= r < 15 ==> t[l][r] == MulTable()[l][r];
    }
  }

  /** Number of (left, right) pairs of basis elements. */
  const PairCount: nat := 225

  /**
   * Adds, for the pairs `p .. 224` (left = p / 15 in the outer loop, right =
   * p % 15 in the inner one), the product of the two basis coefficients times
   * the table sign into the coefficient the table names.
   */
  function Accumulate(t: seq<seq<Entry>>, a: Coeffs, b: Coeffs, acc: Coeffs, p: nat): Coeffs
    requires WellFormedTable(t)
    requires p <= PairCount
    decreases PairCount - p
  {
    if p == PairCount then acc
    else
      var e := t[p / 15][p % 15];
      var contrib := a[p / 15 + 1] * b[p % 15 + 1] * e.sign as real;
      Accumulate(t, a, b, acc[e.out := acc[e.out] + contrib], p + 1)
  }

  /**
   * The `Mul` operator: the terms with a real part on either side, then the
   * sweep over the 225 basis pairs. With a purely real operand the sweep adds
   * nothing, so only the real-part terms remain.
   */
  function Mul(x: TetraQuaternion, y: TetraQuaternion): (r: TetraQuaternion)
    ensures IsScalar(x.coeffs) || IsScalar(y.coeffs) ==> r.coeffs == ScalarTerms(x.coeffs, y.coeffs)
  {
    var c := Accumulate(MulTable(), x.coeffs, y.coeffs, ScalarTerms(x.coeffs, y.coeffs), 0);
    assert IsScalar(x.coeffs) || IsScalar(y.coeffs) ==> c == ScalarTerms(x.coeffs, y.coeffs) by {
      if IsScalar(x.coeffs) || IsScalar(y.coeffs) {
        AccumulateScalar(MulTable(), x.coeffs, y.coeffs, ScalarTerms(x.coeffs, y.coeffs), 0);
      }
    }
    TetraQuaternion(c)
  }

  /** `MulAssign`: `self` is replaced by `self * rhs`. */
  method MulAssign(self: TetraQuaternion, rhs: TetraQuaternion) returns (r: TetraQuaternion)
    ensures r == Mul(self, rhs)
  {
    r := Mul(self, rhs);
  }

  /** An element all of whose basis coefficients (1 to 15) are zero. */
  ghost predicate IsScalar(c: Coeffs) {
    forall n :: 1 <= n < Dim ==> c[n] == 0.0
  }

  /** With a scalar operand on either side, no basis-pair product contributes. */
  lemma {:induction false} AccumulateScalar(t: seq<seq<Entry>>, a: Coeffs, b: Coeffs, acc: Coeffs, p: nat)
    requires WellFormedTable(t)
    requires p <= PairCount
    requires IsScalar(a) || IsScalar(b)
    ensures Accumulate(t, a, b, acc, p) == acc
    decreases PairCount - p
  {
    hide Accumulate;
    if p == PairCount {
      AccumulateDone(t, a, b, acc);
    } else {
      ScalarStep(t, a, b, acc, p);
      AccumulateScalar(t, a, b, acc, p + 1);
    }
  }

  /** With a scalar operand, each pair's product is zero and the step adds nothing. */
  lemma ScalarStep(t: seq<seq<Entry>>, a: Coeffs, b: Coeffs, acc: Coeffs, p: nat)
    requires WellFormedTable(t)
    requires p < PairCount
    requires IsScalar(a) || IsScalar(b)
    ensures Accumulate(t, a, b, acc, p) == Accumulate(t, a, b, acc, p + 1)
  {
    hide Accumulate;
    AccumulateUnfold(t, a, b, acc, p);
    var l, r := p / 15, p % 15;
    var e := t[l][r];
    assert a[l + 1] == 0.0 || b[r + 1] == 0.0;
    var contrib := a[l + 1] * b[r + 1] * e.sign as real;
    assert contrib == 0.0;
    assert acc[e.out := acc[e.out] + contrib] == acc;
  }

  /** `k` times every coefficient. */
  function ScaleBy(k: real, q: TetraQuaternion): (r: TetraQuaternion)
    ensures forall n :: 0 <= n < Dim ==> r.coeffs[n] == k * q.coeffs[n]
  {
    TetraQuaternion(seq(Dim, n requires 0 <= n < Dim => k * q.coeffs[n]))
  }

  /** The scalar terms with a real number on either side scale every coefficient. */
  lemma ScalarTermsOfReal(k: real, q: TetraQuaternion)
    ensures ScalarTerms(Unit(0, k).coeffs, q.coeffs) == ScaleBy(k, q).coeffs
    ensures ScalarTerms(q.coeffs, Unit(0, k).coeffs) == ScaleBy(k, q).coeffs
  {
    var s := Unit(0, k).coeffs;
    var left := ScalarTerms(s, q.coeffs);
    var right := ScalarTerms(q.coeffs, s);
    forall n | 0 <= n < Dim
      ensures left[n] == k * q.coeffs[n] && right[n] == k * q.coeffs[n]
    {
      if n == 0 {
        assert s[0] == k;
      } else {
        assert s[0] == k && s[n] == 0.0;
        assert left[n] == k * q.coeffs[n] + 0.0 * q.coeffs[0];
        assert right[n] == q.coeffs[0] * 0.0 + q.coeffs[n] * k;
      }
    }
    var scaled := ScaleBy(k, q).coeffs;
    assert |left| == |scaled| == Dim;
    assert forall n :: 0 <= n < Dim ==> left[n] == scaled[n];
    assert left == scaled;
    assert right == scaled;
  }

  /** Multiplying by a real number on either side scales every coefficient. */
  lemma MulByScalar(k: real, q: TetraQuaternion)
    ensures Mul(Unit(0, k), q) == ScaleBy(k, q)
    ensures Mul(q, Unit(0, k)) == ScaleBy(k, q)
  {
    var s := Unit(0, k).coeffs;
    assert IsScalar(s);
    ScalarTermsOfReal(k, q);
    AccumulateScalar(MulTable(), s, q.coeffs, ScalarTerms(s, q.coeffs), 0);
    AccumulateScalar(MulTable(), q.coeffs, s, ScalarTerms(q.coeffs, s), 0);
  }

  /** `one()` is a two-sided identity for `Mul`. */
  lemma OneIsIdentity(q: TetraQuaternion)
    ensures Mul(One(), q) == q
    ensures Mul(q, One()) == q
  {
    hide Mul, Accumulate, MulTable;
    MulByScalar(1.0, q);
    assert ScaleBy(1.0, q) == q by {
      assert ScaleBy(1.0, q).coeffs == q.coeffs;
    }
    assert One() == Unit(0, 1.0);
  }

  /** Pair number `p` of the sweep is the pair (p / 15, p % 15). */
  lemma PairNumber(p: nat, i: nat, j: nat)
    requires p < PairCount && i < 15 && j < 15
    ensures p / 15 < 15 && p % 15 < 15
    ensures p / 15 == i && p % 15 == j <==> p == i * 15 + j
  {
  }

  /** The basis coefficients of `c` are those of the basis element `i`. */
  ghost predicate HasBasisPart(c: Coeffs, i: nat) {
    forall n :: 1 <= n < Dim ==> c[n] == (if n == i + 1 then 1.0 else 0.0)
  }

  /**
   * For two basis elements only the pair (i, j) contributes: the sweep from
   * pair `p` adds the table sign at the table coefficient exactly when the
   * pair (i, j) is still ahead.
   */
  lemma {:induction false} AccumulateBasisPair(
    t: seq<seq<Entry>>, a: Coeffs, b: Coeffs, i: nat, j: nat, acc: Coeffs, p: nat)
    requires WellFormedTable(t)
    requires i < 15 && j < 15
    requires HasBasisPart(a, i) && HasBasisPart(b, j)
    requires p <= PairCount
    ensures var e := t[i][j];
      Accumulate(t, a, b, acc, p)
      == if p <= i * 15 + j then acc[e.out := acc[e.out] + e.sign as real] else acc
    decreases PairCount - p
  {
    hide Accumulate;
    var e := t[i][j];
    var hit := acc[e.out := acc[e.out] + e.sign as real];
    if p == PairCount {
      AccumulateDone(t, a, b, acc);
    } else if p == i * 15 + j {
      StepAtPair(t, a, b, i, j, acc, p);
      AccumulateBasisPair(t, a, b, i, j, hit, p + 1);
    } else {
      StepElsewhere(t, a, b, i, j, acc, p);
      AccumulateBasisPair(t, a, b, i, j, acc, p + 1);
    }
  }

  /** At the pair (i, j) itself the sweep adds the table sign at the table's coefficient. */
  lemma StepAtPair(t: seq<seq<Entry>>, a: Coeffs, b: Coeffs, i: nat, j: nat, acc: Coeffs, p: nat)
    requires WellFormedTable(t)
    requires i < 15 && j < 15
    requires HasBasisPart(a, i) && HasBasisPart(b, j)
    requires p == i * 15 + j
    ensures p < PairCount
    ensures var e := t[i][j];
      Accumulate(t, a, b, acc, p) == Accumulate(t, a, b, acc[e.out := acc[e.out] + e.sign as real], p + 1)
  {
    PairNumber(p, i, j);
    AccumulateUnfold(t, a, b, acc, p);
    assert a[i + 1] == 1.0 && b[j + 1] == 1.0;
  }

  /** At any other pair one of the two basis coefficients is zero, so the sweep adds nothing. */
  lemma StepElsewhere(t: seq<seq<Entry>>, a: Coeffs, b: Coeffs, i: nat, j: nat, acc: Coeffs, p: nat)
    requires WellFormedTable(t)
    requires i < 15 && j < 15
    requires HasBasisPart(a, i) && HasBasisPart(b, j)
    requires p < PairCount && p != i * 15 + j
    ensures Accumulate(t, a, b, acc, p) == Accumulate(t, a, b, acc, p + 1)
  {
    hide Accumulate;
    PairNumber(p, i, j);
    var l, r := p / 15, p % 15;
    var e := t[l][r];
    var contrib := a[l + 1] * b[r + 1] * e.sign as real;
    AccumulateUnfold(t, a, b, acc, p);
    assert a[l + 1] == 0.0 || b[r + 1] == 0.0;
    assert contrib == 0.0;
    assert acc[e.out := acc[e.out] + contrib] == acc;
  }

  /** One step of the sweep: pair `p` adds its signed product at the coefficient the table names. */
  lemma AccumulateUnfold(t: seq<seq<Entry>>, a: Coeffs, b: Coeffs, acc: Coeffs, p: nat)
    requires WellFormedTable(t)
    requires p < PairCount
    ensures p / 15 < 15 && p % 15 < 15
    ensures var e := t[p / 15][p % 15];
      Accumulate(t, a, b, acc, p)
      == Accumulate(t, a, b, acc[e.out := acc[e.out] + a[p / 15 + 1] * b[p % 15 + 1] * e.sign as real], p + 1)
  {
  }

  /** The sweep past the last pair adds nothing. */
  lemma AccumulateDone(t: seq<seq<Entry>>, a: Coeffs, b: Coeffs, acc: Coeffs)
    requires WellFormedTable(t)
    ensures Accumulate(t, a, b, acc, PairCount) == acc
  {
  }

  /** Two basis elements have no real part, so their scalar terms vanish. */
  lemma BasisScalarTerms(i: nat, j: nat)
    requires i < BasisCount && j < BasisCount
    ensures ScalarTerms(BasisElement(i).coeffs, BasisElement(j).coeffs) == Unit(0, 0.0).coeffs
  {
    var a := BasisElement(i).coeffs;
    var b := BasisElement(j).coeffs;
    assert a[0] == 0.0 && b[0] == 0.0;
    var s := ScalarTerms(a, b);
    assert forall n :: 0 <= n < Dim ==> s[n] == Unit(0, 0.0).coeffs[n];
  }

  /** A basis element's basis coefficients are those of `HasBasisPart`. */
  lemma BasisHasPart(i: nat)
    requires i < BasisCount
    ensures HasBasisPart(BasisElement(i).coeffs, i)
  {
  }

  /** Writing `value` at coefficient `k` of zero gives the unit at `k`. */
  lemma UnitFromZero(k: nat, value: real)
    requires k < Dim
    ensures Unit(0, 0.0).coeffs[k := Unit(0, 0.0).coeffs[k] + value] == Unit(k, value).coeffs
  {
  }

  /** Over any well-formed table, the sweep for two basis elements yields the signed unit at (i, j). */
  lemma AccumulateBasis(t: seq<seq<Entry>>, i: nat, j: nat)
    requires WellFormedTable(t)
    requires i < BasisCount && j < BasisCount
    ensures Accumulate(t, BasisElement(i).coeffs, BasisElement(j).coeffs,
                       ScalarTerms(BasisElement(i).coeffs, BasisElement(j).coeffs), 0)
         == Unit(t[i][j].out, t[i][j].sign as real).coeffs
  {
    hide Accumulate, BasisElement, ScalarTerms, Unit;
    var a := BasisElement(i).coeffs;
    var b := BasisElement(j).coeffs;
    var zeros := Unit(0, 0.0).coeffs;
    var e := t[i][j];
    BasisScalarTerms(i, j);
    BasisHasPart(i);
    BasisHasPart(j);
    assert ScalarTerms(a, b) == zeros;
    AccumulateBasisPair(t, a, b, i, j, zeros, 0);
    UnitFromZero(e.out, e.sign as real);
  }

  /** The product of two basis elements is the signed unit the table names. */
  lemma BasisProduct(i: nat, j: nat)
    requires i < BasisCount && j < BasisCount
    ensures Mul(BasisElement(i), BasisElement(j))
      == Unit(MulEntry(i, j).out, MulEntry(i, j).sign as real)
  {
    AccumulateBasis(MulTable(), i, j);
  }

  /** The square the repository's tests check on a small-quaternion basis element: j * j = -1. */
  lemma TestedSquareJ()
    ensures Mul(BasisElement(0), BasisElement(0)).coeffs[0] == -1.0
  {
    assert Basis[0] == UnitPair(J, R);
    assert MulEntry(0, 0) == Entry(-1, 0);
    BasisProduct(0, 0);
  }

  /** The square the repository's tests check on a mixed basis element: iI * iI = +1. */
  lemma TestedSquareII()
    ensures Mul(BasisElement(4), BasisElement(4)).coeffs[0] == 1.0
  {
    assert Basis[4] == UnitPair(I, I);
    assert MulEntry(4, 4) == Entry(1, 0);
    BasisProduct(4, 4);
  }

  /** The mixed product the repository's tests check first: j * kI = +iI. */
  lemma TestedProductJKI()
    ensures Mul(BasisElement(0), BasisElement(1)).coeffs[5] == 1.0
  {
    assert Basis[0] == UnitPair(J, R) && Basis[1] == UnitPair(K, I);
    assert MulEntry(0, 1) == Entry(1, 5);
    BasisProduct(0, 1);
  }

  /** The quaternion product the repository's tests check: j * k = +i. */
  lemma TestedProductJK()
    ensures Mul(BasisElement(0), BasisElement(10)).coeffs[15] == 1.0
  {
    assert Basis[0] == UnitPair(J, R) && Basis[10] == UnitPair(K, R);
    assert MulEntry(0, 10) == Entry(1, 15);
    BasisProduct(0, 10);
  }

  /** The identity products the repository's tests check: 1 * j = j * 1 = j. */
  lemma TestedIdentityProducts()
    ensures Mul(One(), BasisElement(0)) == BasisElement(0)
    ensures Mul(BasisElement(0), One()) == BasisElement(0)
  {
    OneIsIdentity(BasisElement(0));
  }

  /** The repository's addition test: 1 + j has coefficient 1 at the real unit and at j. */
  lemma TestedAddition()
    ensures Add(New(1.0, seq(BasisCount, n => 0.0)), BasisElement(0)).coeffs[0] == 1.0
    ensures Add(New(1.0, seq(BasisCount, n => 0.0)), BasisElement(0)).coeffs[1] == 1.0
  {
  }

  /** Threshold below which a coefficient counts as zero. */
  const ZeroTolerance: real := 0.0000000001

  /** Whether every element of `s` is below `eps` in absolute value. */
  function AllSmall(s: seq<real>, eps: real): (r: bool)
    ensures r <==> forall n :: 0 <= n < |s| ==> Abs(s[n]) < eps
  {
    if |s| == 0 then true
    else Abs(s[0]) < eps && AllSmall(s[1..], eps)
  }

  /** `is_zero`: every coefficient is below 1e-10 in absolute value. */
  function IsZero(q: TetraQuaternion): (r: bool)
    ensures r <==> forall n :: 0 <= n < Dim ==> Abs(q.coeffs[n]) < ZeroTolerance
  {
    AllSmall(q.coeffs, ZeroTolerance)
  }
}
