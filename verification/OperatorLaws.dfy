/**
 What the operators and the truth of a value mean, without saying how they are
 computed: differences, quotients and remainders by what undoes them,
 comparisons by the order of the numbers, and exactly which operands are
 refused.
 */
module OperatorLaws {
  import opened Values

  predicate IsNumber(v: Value) {
    v.Int? || v.Dec?
  }

  /** The number a numeric value stands for. */
  function Num(v: Value): real
    requires IsNumber(v)
  {
    if v.Int? then v.n as real else v.d
  }

  /** The two numbers as results: an integer if both operands are, and otherwise a decimal. */
  predicate SameKind(a: Value, b: Value, r: Value) {
    if a.Int? && b.Int? then r.Int? else r.Dec?
  }

  // ----- which operands are refused -----

  /** The operands an operator takes: numbers, integers for the remainder, two strings to join, anything to compare. */
  predicate Takes(op: BinOp, a: Value, b: Value) {
    match op
    case Add => (IsNumber(a) && IsNumber(b)) || (a.Str? && b.Str?)
    case Sub | Mul | Div | Lt | Gt | Lte | Gte => IsNumber(a) && IsNumber(b)
    case Mod => a.Int? && b.Int?
    case Eq | Neq => true
    case And | Or => false
  }

  /** Errors, exactly: a wrong kind of operand, or a number divided by zero. */
  lemma ErrorsExactly(op: BinOp, a: Value, b: Value)
    ensures ApplyBinOp(op, a, b) == Err(TypeError) <==> !Takes(op, a, b)
    ensures ApplyBinOp(op, a, b) == Err(DivisionByZero) <==> op in {Div, Mod} && Takes(op, a, b) && Num(b) == 0.0
    ensures ApplyBinOp(op, a, b).Err? ==> ApplyBinOp(op, a, b).error in {TypeError, DivisionByZero}
  {
    if a.Int? && b.Int? && b.n != 0 {
      assert b.n as real != 0.0;
    }
  }

  // ----- arithmetic -----

  /** A sum less one of its terms is the other. */
  lemma SumLessTerm(a: Value, b: Value)
    requires IsNumber(a) && IsNumber(b)
    ensures ApplyBinOp(Add, a, b).Ok?
    ensures var s := ApplyBinOp(Add, a, b).value;
            && SameKind(a, b, s) && Num(s) - Num(b) == Num(a) && Num(s) - Num(a) == Num(b)
            && ApplyBinOp(Sub, s, b).Ok? && Num(ApplyBinOp(Sub, s, b).value) == Num(a)
  {
  }

  /** Strings are put one after the other. */
  lemma Joined(a: Value, b: Value)
    requires a.Str? && b.Str?
    ensures ApplyBinOp(Add, a, b).Ok? && ApplyBinOp(Add, a, b).value.Str?
    ensures var s := ApplyBinOp(Add, a, b).value.s;
            |s| == |a.s| + |b.s| && s[..|a.s|] == a.s && s[|a.s|..] == b.s
  {
  }

  /** A difference and what was taken away make up what there was. */
  lemma DifferenceAndRest(a: Value, b: Value)
    requires IsNumber(a) && IsNumber(b)
    ensures ApplyBinOp(Sub, a, b).Ok?
    ensures var d := ApplyBinOp(Sub, a, b).value;
            && SameKind(a, b, d) && Num(d) + Num(b) == Num(a)
            && (a.Int? && b.Int? ==> d.n + b.n == a.n)
  {
  }

  /** A product divided by a factor is the other one, and a product with zero is zero. */
  lemma ProductOfFactors(a: Value, b: Value)
    requires IsNumber(a) && IsNumber(b)
    ensures ApplyBinOp(Mul, a, b).Ok?
    ensures var p := ApplyBinOp(Mul, a, b).value;
            && SameKind(a, b, p)
            && (Num(b) == 0.0 ==> Num(p) == 0.0)
            && (Num(b) != 0.0 ==> Num(p) / Num(b) == Num(a))
  {
    var x, y := Num(a), Num(b);
    MulIs(a, b, x, y);
    hide ApplyBinOp;
    RealFactors(x, y);
  }

  lemma ProductOfIntegers(a: Value, b: Value)
    requires a.Int? && b.Int? && b.n != 0
    ensures ApplyBinOp(Mul, a, b).Ok? && ApplyBinOp(Mul, a, b).value.Int?
    ensures var p := ApplyBinOp(Mul, a, b).value.n; p % b.n == 0 && p / b.n == a.n
  {
    MulIs(a, b, Num(a), Num(b));
    hide ApplyBinOp;
    IntegerFactors(a.n, b.n);
  }

  lemma MulIs(a: Value, b: Value, x: real, y: real)
    requires IsNumber(a) && IsNumber(b) && x == Num(a) && y == Num(b)
    ensures ApplyBinOp(Mul, a, b).Ok? && SameKind(a, b, ApplyBinOp(Mul, a, b).value)
    ensures Num(ApplyBinOp(Mul, a, b).value) == x * y
    ensures a.Int? && b.Int? ==> ApplyBinOp(Mul, a, b).value.n == a.n * b.n
  {
    if a.Int? && b.Int? {
      RealProduct(a.n, b.n);
    } else {
      assert ToDecimal(a) == Some(x) && ToDecimal(b) == Some(y);
      assert ApplyBinOp(Mul, a, b) == Promoted(a, b, (u, v) => Ok(Dec(u * v)));
    }
  }

  lemma {:induction false} RealProduct(x: int, y: int)
    ensures (x * y) as real == x as real * y as real
    decreases Abs(y)
  {
    if y > 0 {
      RealProduct(x, y - 1);
      assert x * y == x * (y - 1) + x;
      assert x as real * y as real == x as real * (y - 1) as real + x as real;
    } else if y < 0 {
      RealProduct(x, y + 1);
      assert x * y == x * (y + 1) - x;
      assert x as real * y as real == x as real * (y + 1) as real - x as real;
    }
  }

  lemma RealFactors(x: real, y: real)
    ensures y == 0.0 ==> x * y == 0.0
    ensures y != 0.0 ==> (x * y) / y == x
  {
    if y != 0.0 {
      var q := (x * y) / y;
      RealQuotient(x * y, y);
      SameFactor(q, x, y);
    }
  }

  lemma SameFactor(q: real, x: real, y: real)
    requires y != 0.0 && q * y == x * y
    ensures q == x
  {
    assert (q - x) * y == q * y - x * y;
  }

  lemma IntegerFactors(x: int, y: int)
    ensures y != 0 ==> (x * y) % y == 0 && (x * y) / y == x
  {
    if y != 0 {
      var q, r := (x * y) / y, (x * y) % y;
      assert (x - q) * y == r;
      if x != q {
        assert x - q >= 1 || x - q <= -1;
        Scaled(x - q, y);
      }
    }
  }

  /** Multiples other than zero are as large as the factor. */
  lemma Scaled(k: int, y: int)
    requires k != 0
    ensures k * y >= Abs(y) || k * y + Abs(y) <= 0
  {
    if k >= 1 && y >= 0 {
      assert (k - 1) * y >= 0;
    } else if k >= 1 {
      assert (k - 1) * -y >= 0;
    } else if y >= 0 {
      assert (-k - 1) * y >= 0;
    } else {
      assert (-k - 1) * -y >= 0;
    }
  }

  /** A quotient times the divisor is the dividend; it is an integer exactly if both are and the division is exact. */
  lemma QuotientTimesDivisor(a: Value, b: Value)
    requires IsNumber(a) && IsNumber(b) && Num(b) != 0.0
    ensures ApplyBinOp(Div, a, b).Ok? && IsNumber(ApplyBinOp(Div, a, b).value)
    ensures var q := ApplyBinOp(Div, a, b).value;
            && Num(q) * Num(b) == Num(a)
            && (q.Int? <==> a.Int? && b.Int? && exists k: int :: a.n == k * b.n)
  {
    DivIs(a, b);
    hide ApplyBinOp, TruncRem;
    RealQuotient(Num(a), Num(b));
    if a.Int? && b.Int? {
      TruncRemExact(a.n, b.n);
      if TruncRem(a.n, b.n) == 0 {
        var q := a.n / b.n;
        assert a.n == q * b.n;
        RealProduct(q, b.n);
      }
    }
  }

  lemma DivIs(a: Value, b: Value)
    requires IsNumber(a) && IsNumber(b) && Num(b) != 0.0
    ensures a.Int? && b.Int? ==> b.n != 0
    ensures ApplyBinOp(Div, a, b) ==
              Ok(if a.Int? && b.Int? && TruncRem(a.n, b.n) == 0 then Int(a.n / b.n) else Dec(Num(a) / Num(b)))
  {
    if b.Int? {
      assert b.n != 0 ==> b.n as real != 0.0;
    }
  }

  lemma RealQuotient(x: real, y: real)
    requires y != 0.0
    ensures (x / y) * y == x
  {
  }

  lemma TruncRemExact(x: int, y: int)
    requires y != 0
    ensures TruncRem(x, y) == 0 <==> exists k: int :: x == k * y
    ensures TruncRem(x, y) == 0 ==> x == (x / y) * y
  {
    var k := RemainderTimes(x, y);
    if TruncRem(x, y) == 0 {
      assert x == k * y;
      IntegerFactors(k, y);
    }
    if j: int :| x == j * y {
      if k != j {
        assert TruncRem(x, y) == (j - k) * y;
        Scaled(j - k, y);
      }
    }
  }

  /** Some multiple of the divisor and the remainder make up the dividend. */
  lemma RemainderTimes(x: int, y: int) returns (k: int)
    requires y != 0
    ensures x == k * y + TruncRem(x, y)
  {
    var m: int := Abs(y);
    var q: int := if x >= 0 then x / m else -((-x) / m);
    k := if y > 0 then q else -q;
    if x >= 0 {
      assert x == (x / m) * m + x % m;
    } else {
      assert -x == ((-x) / m) * m + (-x) % m;
    }
  }

  /** A remainder, with the sign of the dividend and smaller than the divisor: there is no other such number. */
  lemma RemainderExactly(a: Value, b: Value)
    requires a.Int? && b.Int? && b.n != 0
    ensures ApplyBinOp(Mod, a, b).Ok? && ApplyBinOp(Mod, a, b).value.Int?
    ensures forall r: int :: IsRemainder(a.n, b.n, r) <==> r == ApplyBinOp(Mod, a, b).value.n
  {
    var m := ApplyBinOp(Mod, a, b).value.n;
    var k := RemainderTimes(a.n, b.n);
    assert a.n == k * b.n + m;
    forall r: int | IsRemainder(a.n, b.n, r)
      ensures r == m
    {
      var j :| a.n == j * b.n + r;
      if j != k {
        assert m - r == (j - k) * b.n;
        Scaled(j - k, b.n);
      }
    }
  }

  ghost predicate IsRemainder(x: int, y: int, r: int) {
    && (exists k: int :: x == k * y + r)
    && Abs(r) < Abs(y)
    && (x >= 0 ==> r >= 0) && (x <= 0 ==> r <= 0)
  }

  /** A number and its negation add up to zero; `not` turns truth around. */
  lemma UnaryLaws(v: Value)
    ensures ApplyUnary(Neg, v) == Err(TypeError) <==> !IsNumber(v)
    ensures IsNumber(v) ==>
              && ApplyUnary(Neg, v).Ok? && SameKind(v, v, ApplyUnary(Neg, v).value)
              && Num(v) + Num(ApplyUnary(Neg, v).value) == 0.0
    ensures ApplyUnary(Not, v).Ok? && ApplyUnary(Not, v).value.Bool?
    ensures Truthy(ApplyUnary(Not, v).value) <==> !Truthy(v)
  {
  }

  // ----- comparisons -----

  /** Whether a comparison says yes. */
  predicate Says(op: BinOp, a: Value, b: Value, yes: bool) {
    ApplyBinOp(op, a, b) == Ok(Bool(yes))
  }

  /** Numbers are compared by their order, integers with decimals too. */
  lemma ComparesNumbers(a: Value, b: Value)
    requires IsNumber(a) && IsNumber(b)
    ensures Says(Lt, a, b, Num(b) - Num(a) > 0.0) && Says(Gt, a, b, Num(a) - Num(b) > 0.0)
    ensures Says(Lte, a, b, !(Num(a) - Num(b) > 0.0)) && Says(Gte, a, b, !(Num(b) - Num(a) > 0.0))
    ensures Says(Lt, a, b, true) <==> Says(Gt, b, a, true)
    ensures Says(Lte, a, b, true) <==> Says(Gte, b, a, true)
    ensures Says(Lte, a, b, true) <==> Says(Gt, a, b, false)
  {
  }

  /**
   Two values are equal if nothing tells them apart: kinds first, so that an
   integer and a decimal never are; then numbers by order and strings by their
   characters.
   */
  lemma Equates(a: Value, b: Value)
    ensures Says(Eq, a, b, true) || Says(Eq, a, b, false)
    ensures Says(Neq, a, b, true) <==> Says(Eq, a, b, false)
    ensures Says(Eq, a, b, true) <==> Says(Eq, b, a, true)
    ensures Says(Eq, a, a, true)
    ensures a.Int? != b.Int? || a.Dec? != b.Dec? || a.Str? != b.Str? ==> Says(Eq, a, b, false)
    ensures a.Bool? != b.Bool? || a.Nil? != b.Nil? || a.Vec? != b.Vec? ==> Says(Eq, a, b, false)
    ensures IsNumber(a) && IsNumber(b) && a.Int? == b.Int? ==>
              (Says(Eq, a, b, true) <==> Says(Lt, a, b, false) && Says(Gt, a, b, false))
    ensures a.Str? && b.Str? ==>
              (Says(Eq, a, b, true) <==> |a.s| == |b.s| && forall i :: 0 <= i < |a.s| ==> a.s[i] == b.s[i])
    ensures a.Vec? && b.Vec? ==>
              (Says(Eq, a, b, true) <==>
                 |a.items| == |b.items| && forall i :: 0 <= i < |a.items| ==> Says(Eq, a.items[i], b.items[i], true))
  {
  }

  // ----- truth -----

  /** The values that count as false, and there is no other. */
  const FALSY: set<Value> := {Nil, Bool(false), Int(0), Dec(0.0), Str(""), Vec([])}

  lemma FalsyExactly(v: Value)
    ensures !Truthy(v) <==> v in FALSY
  {
  }
}
