/**
 The field GF(256) with the polynomial 0x11D, as the erasure codec computes it: shift-and-reduce multiplication,
 repeated multiplication for powers, and value^254 for the inverse. `Mul` and `Pow` are the specification; the
 methods at the end are the source's loops. The field laws are proved from bit-level facts about one doubling
 step, never by enumerating bytes.
 */
module GaloisField {
  import opened Results

  type byte = bv8

  function Add(a: byte, b: byte): byte { a ^ b }

  function Xtime(a: byte): byte { (a << 1) ^ ((0 - (a >> 7)) & 0x1D) }

  function Low(b: byte, a: byte): byte { if b & 1 == 1 then a else 0 }

  function Mul(a: byte, b: byte): byte
    decreases b
  {
    if b == 0 then 0 else Add(Low(b, a), Mul(Xtime(a), b >> 1))
  }

  function Pow(a: byte, e: nat): byte {
    if e == 0 then 1 else Mul(Pow(a, e - 1), a)
  }

  function Square(a: byte): byte { Mul(a, a) }

  /** Doubling shifts left and, when a ninth bit appears, takes the polynomial 0x11D away. */
  lemma DoublingReduces(a: byte)
    ensures Mul(a, 2) as bv16 == if a < 0x80 then (a as bv16) << 1 else ((a as bv16) << 1) ^ 0x11D
  {
    assert Mul(a, 2) == Add(Low(2, a), Mul(Xtime(a), 1));
    assert Mul(Xtime(a), 1) == Add(Low(1, Xtime(a)), Mul(Xtime(Xtime(a)), 0));
  }

  // ---------- ring laws

  lemma AddLaws(a: byte, b: byte, c: byte)
    ensures Add(a, b) == Add(b, a)
    ensures Add(Add(a, b), c) == Add(a, Add(b, c))
    ensures Add(a, 0) == a == Add(0, a)
    ensures Add(a, a) == 0
  {}

  lemma AddCancel(a: byte, b: byte)
    ensures Add(a, b) == 0 <==> a == b
  {}

  lemma AddShuffle(a: byte, b: byte, c: byte, d: byte)
    ensures Add(Add(a, b), Add(c, d)) == Add(Add(a, c), Add(b, d))
  {
    hide Add;
    AddLaws(a, b, Add(c, d));
    AddLaws(b, c, d);
    AddLaws(c, b, d);
    AddLaws(a, c, Add(b, d));
  }

  lemma XtimeAdd(a: byte, b: byte)
    ensures Xtime(Add(a, b)) == Add(Xtime(a), Xtime(b))
  {}

  lemma LowAdd(b: byte, a: byte, c: byte)
    ensures Low(b, Add(a, c)) == Add(Low(b, a), Low(b, c))
    ensures Low(b, Xtime(a)) == Xtime(Low(b, a))
    ensures Xtime(0) == 0
  {}

  lemma {:induction false} MulAddLeft(a: byte, c: byte, b: byte)
    ensures Mul(Add(a, c), b) == Add(Mul(a, b), Mul(c, b))
    decreases b
  {
    AddLaws(0, 0, 0);
    if b != 0 {
      var b' := b >> 1;
      XtimeAdd(a, c);
      LowAdd(b, a, c);
      hide Add, Xtime, Low;
      MulAddLeft(Xtime(a), Xtime(c), b');
      AddShuffle(Low(b, a), Low(b, c), Mul(Xtime(a), b'), Mul(Xtime(c), b'));
    }
  }

  lemma {:induction false} MulXtimeLeft(a: byte, b: byte)
    ensures Mul(Xtime(a), b) == Xtime(Mul(a, b))
    decreases b
  {
    LowAdd(b, a, 0);
    hide Add, Xtime, Low;
    if b != 0 {
      MulXtimeLeft(Xtime(a), b >> 1);
      XtimeAdd(Low(b, a), Mul(Xtime(a), b >> 1));
    }
  }

  lemma SplitLow(b: byte)
    ensures b == Add(Low(b, 1), Xtime(b >> 1))
  {}

  lemma {:induction false} MulOneLeft(b: byte)
    ensures Mul(1, b) == b
    decreases b
  {
    hide Add, Xtime, Low;
    if b != 0 {
      MulXtimeLeft(1, b >> 1);
      MulOneLeft(b >> 1);
      SplitLow(b);
    }
  }

  lemma MulStep(a: byte, b: byte)
    ensures Mul(a, b) == Add(Low(b, a), Mul(Xtime(a), b >> 1))
  {}

  /** Multiplication without recursion, for evaluating concrete products. */
  function Product(a0: byte, b: byte): byte {
    var a1 := Xtime(a0); var a2 := Xtime(a1); var a3 := Xtime(a2); var a4 := Xtime(a3);
    var a5 := Xtime(a4); var a6 := Xtime(a5); var a7 := Xtime(a6);
    Add(Low(b, a0), Add(Low(b >> 1, a1), Add(Low(b >> 2, a2), Add(Low(b >> 3, a3),
    Add(Low(b >> 4, a4), Add(Low(b >> 5, a5), Add(Low(b >> 6, a6), Low(b >> 7, a7))))))))
  }

  lemma Shifts(b: byte)
    ensures b >> 1 >> 1 == b >> 2 && b >> 2 >> 1 == b >> 3 && b >> 3 >> 1 == b >> 4 && b >> 4 >> 1 == b >> 5
    ensures b >> 5 >> 1 == b >> 6 && b >> 6 >> 1 == b >> 7 && b >> 7 >> 1 == 0
  {}

  lemma MulIsProduct(a0: byte, b: byte)
    ensures Mul(a0, b) == Product(a0, b)
  {
    Shifts(b);
    assert Mul(Xtime(Xtime(Xtime(Xtime(Xtime(Xtime(Xtime(Xtime(a0)))))))), 0) == 0;
    hide Add, Xtime, Low, Mul;
    var a1 := Xtime(a0); var a2 := Xtime(a1); var a3 := Xtime(a2); var a4 := Xtime(a3);
    var a5 := Xtime(a4); var a6 := Xtime(a5); var a7 := Xtime(a6);
    MulStep(a0, b); MulStep(a1, b >> 1); MulStep(a2, b >> 2); MulStep(a3, b >> 3);
    MulStep(a4, b >> 4); MulStep(a5, b >> 5); MulStep(a6, b >> 6); MulStep(a7, b >> 7);
    AddLaws(Low(b >> 7, a7), 0, 0);
  }

  lemma {:induction false} MulZeroLeft(b: byte)
    ensures Mul(0, b) == 0
    decreases b
  {
    if b != 0 { MulZeroLeft(b >> 1); }
  }

  lemma MulLow(b: byte, a: byte)
    ensures Mul(Low(b, 1), a) == Low(b, a)
  {
    MulOneLeft(a);
    MulZeroLeft(a);
  }

  lemma {:induction false} MulCommutes(a: byte, b: byte)
    ensures Mul(a, b) == Mul(b, a)
    decreases b
  {
    hide Add, Xtime, Low;
    if b == 0 {
      MulZeroLeft(a);
    } else {
      var c := b >> 1;
      SplitLow(b);
      MulAddLeft(Low(b, 1), Xtime(c), a);
      MulLow(b, a);
      MulXtimeLeft(c, a);
      MulCommutes(a, c);
      MulXtimeLeft(a, c);
    }
  }

  lemma MulAddRight(a: byte, b: byte, c: byte)
    ensures Mul(a, Add(b, c)) == Add(Mul(a, b), Mul(a, c))
  {
    hide *;
    MulCommutes(a, Add(b, c));
    MulCommutes(a, b);
    MulCommutes(a, c);
    MulAddLeft(b, c, a);
  }

  lemma MulLowRight(a: byte, c: byte, b: byte)
    ensures Mul(a, Low(c, b)) == Low(c, Mul(a, b))
  {}

  lemma {:induction false} MulAssociates(a: byte, b: byte, c: byte)
    ensures Mul(Mul(a, b), c) == Mul(a, Mul(b, c))
    decreases c
  {
    hide Add, Xtime, Low;
    if c != 0 {
      var c' := c >> 1;
      MulCommutes(a, b);
      MulCommutes(a, Xtime(b));
      MulXtimeLeft(b, a);
      MulAssociates(a, Xtime(b), c');
      MulAddRight(a, Low(c, b), Mul(Xtime(b), c'));
      MulLowRight(a, c, b);
    }
  }

  lemma {:induction false} PowAdd(a: byte, m: nat, n: nat)
    ensures Pow(a, m + n) == Mul(Pow(a, m), Pow(a, n))
  {
    hide Mul;
    if n == 0 {
      MulCommutes(Pow(a, m), 1);
      MulOneLeft(Pow(a, m));
    } else {
      PowAdd(a, m, n - 1);
      MulAssociates(Pow(a, m), Pow(a, n - 1), a);
    }
  }
  // ---------- Frobenius
  lemma SquareAdd(a: byte, b: byte)
    ensures Square(Add(a, b)) == Add(Square(a), Square(b))
  {
    hide Add, Mul;
    MulAddLeft(a, b, Add(a, b));
    MulAddRight(a, a, b);
    MulAddRight(b, a, b);
    MulCommutes(a, b);
    var p, q, r := Mul(a, a), Mul(a, b), Mul(b, b);
    AddShuffle(p, q, r, q);
    AddLaws(q, r, 0);
    AddLaws(q, q, 0);
    AddLaws(Add(p, r), 0, 0);
  }

  lemma SquareXtime(a: byte)
    ensures Square(Xtime(a)) == Xtime(Xtime(Square(a)))
  {
    hide Mul, Xtime;
    MulXtimeLeft(a, Xtime(a));
    MulCommutes(a, Xtime(a));
    MulXtimeLeft(a, a);
  }

  function Bit(a: byte, k: byte, v: byte): byte
    requires k < 8
  { (0 - ((a >> k) & 1)) & v }

  /** Squaring is linear: the image of x^k is x^2k. */
  function SquareMap(a: byte): byte {
    Bit(a, 0, 0x01) ^ Bit(a, 1, 0x04) ^ Bit(a, 2, 0x10) ^ Bit(a, 3, 0x40) ^
    Bit(a, 4, 0x1D) ^ Bit(a, 5, 0x74) ^ Bit(a, 6, 0xCD) ^ Bit(a, 7, 0x13)
  }

  lemma SquareMapStep(a: byte)
    ensures SquareMap(Xtime(a)) == Xtime(Xtime(SquareMap(a)))
  {}

  lemma SquareMapLow(a: byte)
    ensures SquareMap(a) == Add(Low(a, 1), SquareMap(Xtime(a >> 1)))
  {}

  lemma {:induction false} SquareIsMap(a: byte)
    ensures Square(a) == SquareMap(a)
    decreases a
  {
    if a == 0 {
      MulZeroLeft(0);
    } else {
      hide Add, Xtime, Low, SquareMap, Mul;
      var h := Xtime(a >> 1);
      SplitLow(a);
      SquareIsMap(a >> 1);
      SquareAdd(Low(a, 1), h);
      SquareXtime(a >> 1);
      SquareMapStep(a >> 1);
      MulLow(a, Low(a, 1));
      LowTwice(a);
      SquareMapLow(a);
    }
  }

  lemma LowTwice(a: byte)
    ensures Low(a, Low(a, 1)) == Low(a, 1)
  {}

  lemma SquareMapFixed(n: byte)
    requires SquareMap(n) == n
    ensures n == 0 || n == 1
  {}

  /** Squaring twice: the image of x^k is x^4k. */
  function FourthMap(a: byte): byte {
    Bit(a, 0, 0x01) ^ Bit(a, 1, 0x10) ^ Bit(a, 2, 0x1D) ^ Bit(a, 3, 0xCD) ^
    Bit(a, 4, 0x4C) ^ Bit(a, 5, 0xB4) ^ Bit(a, 6, 0x8F) ^ Bit(a, 7, 0x18)
  }

  lemma FourthIsSquareTwice(a: byte)
    ensures FourthMap(a) == SquareMap(SquareMap(a))
  {}

  lemma FourthMapFour(a: byte)
    ensures FourthMap(FourthMap(FourthMap(FourthMap(a)))) == a
  {}

  lemma SquareMapEight(a: byte)
    ensures SquareMap(SquareMap(SquareMap(SquareMap(SquareMap(SquareMap(SquareMap(SquareMap(a)))))))) == a
  {
    var b := FourthMap(a);
    var c := FourthMap(b);
    var d := FourthMap(c);
    FourthMapFour(a);
    hide SquareMap, FourthMap;
    FourthIsSquareTwice(a);
    FourthIsSquareTwice(b);
    FourthIsSquareTwice(c);
    FourthIsSquareTwice(d);
  }

  lemma PowDouble(a: byte, n: nat)
    ensures Pow(a, 2 * n) == SquareMap(Pow(a, n))
  {
    hide Mul, SquareMap, Pow;
    PowAdd(a, n, n);
    assert n + n == 2 * n;
    SquareIsMap(Pow(a, n));
  }

  lemma Pow256(a: byte)
    ensures Pow(a, 256) == a
  {
    PowOne(a);
    hide *;
    PowDouble(a, 1); PowDouble(a, 2); PowDouble(a, 4); PowDouble(a, 8);
    PowDouble(a, 16); PowDouble(a, 32); PowDouble(a, 64); PowDouble(a, 128);
    SquareMapEight(a);
  }

  lemma PowOne(a: byte)
    ensures Pow(a, 1) == a
  { MulOneLeft(a); assert Pow(a, 0) == 1; }

  /** The multiplicative group has exponent 255, so value^254 is the inverse the source computes. */
  lemma Fermat(a: byte)
    requires a != 0
    ensures Pow(a, 255) == 1
  {
    var n := Pow(a, 255);
    Pow256(a);
    assert Pow(a, 256) == Mul(n, a);
    PowDouble(a, 255);
    PowAdd(a, 256, 254);
    MulCommutes(a, Pow(a, 254));
    hide Mul, SquareMap;
    assert Pow(a, 510) == n;
    SquareMapFixed(n);
    MulZeroLeft(a);
  }

  /** The field is closed under division: value^254 undoes a non-zero value. */
  lemma InverseIsPow254(a: byte)
    requires a != 0
    ensures Mul(Pow(a, 254), a) == 1
    ensures Pow(a, 254) != 0
  {
    Fermat(a);
    MulZeroLeft(a);
  }

  lemma NoZeroDivisors(a: byte, b: byte)
    ensures Mul(a, b) == 0 <==> a == 0 || b == 0
  {
    hide Pow;
    MulZeroLeft(b);
    if a != 0 {
      var i := Pow(a, 254);
      InverseIsPow254(a);
      MulAssociates(i, a, b);
      MulOneLeft(b);
      MulCommutes(i, 0);
      MulZeroLeft(i);
      MulZeroLeft(a);
      MulCommutes(a, 0);
    }
  }

  lemma MulCancel(a: byte, b: byte, c: byte)
    requires a != 0 && Mul(a, b) == Mul(a, c)
    ensures b == c
  {
    hide Mul, Add;
    MulAddRight(a, b, c);
    AddCancel(Mul(a, b), Mul(a, c));
    NoZeroDivisors(a, Add(b, c));
    AddCancel(b, c);
  }

  lemma {:induction false} PowNonZero(a: byte, e: nat)
    requires a != 0
    ensures Pow(a, e) != 0
  {
    if e > 0 {
      PowNonZero(a, e - 1);
      NoZeroDivisors(Pow(a, e - 1), a);
    }
  }

  /** Characteristic two: different field elements have different squares. */
  lemma SquareInjective(a: byte, b: byte)
    requires Square(a) == Square(b)
    ensures a == b
  {
    hide Mul, Add;
    SquareAdd(a, b);
    AddCancel(Square(a), Square(b));
    NoZeroDivisors(Add(a, b), Add(a, b));
    AddCancel(a, b);
  }

  lemma WideXtime(left: bv16)
    requires left < 0x100
    ensures var wide := left << 1;
            var reduced := if wide & 0x100 != 0 then wide ^ 0x11D else wide;
            reduced < 0x100 && reduced as byte == Xtime(left as byte)
  {}

  lemma WideAdd(result: bv16, left: bv16)
    requires result < 0x100 && left < 0x100
    ensures result ^ left < 0x100 && (result ^ left) as byte == Add(result as byte, left as byte)
  {}

  /** What the multiplication loop has left to do: the partial sum plus the remaining product is the whole product. */
  ghost predicate Pending(product: byte, result: bv16, left: bv16, right: byte) {
    left < 0x100 && result < 0x100 && Add(result as byte, Mul(left as byte, right)) == product
  }

  lemma PendingStep(product: byte, result: bv16, left: bv16, right: byte)
    requires Pending(product, result, left, right) && right != 0
    ensures var result' := if right & 1 == 1 then result ^ left else result;
            var wide := left << 1;
            Pending(product, result', if wide & 0x100 != 0 then wide ^ 0x11D else wide, right >> 1)
  {
    var r, l, m := result as byte, left as byte, right >> 1;
    WideAdd(result, left);
    WideXtime(left);
    hide Add, Xtime;
    AddLaws(r, Low(right, l), Mul(Xtime(l), m));
    AddLaws(r, 0, 0);
  }

  method GfMul(left0: byte, right0: byte) returns (product: byte)
    ensures product == Mul(left0, right0)
  {
    var result, left, right := 0 as bv16, left0 as bv16, right0;
    AddLaws(Mul(left0, right0), 0, 0);
    while right != 0
      invariant Pending(Mul(left0, right0), result, left, right)
      decreases right
    {
      PendingStep(Mul(left0, right0), result, left, right);
      hide *;
      if right & 1 == 1 {
        result := result ^ left;
      }
      right := right >> 1;
      left := left << 1;
      if left & 0x100 != 0 {
        left := left ^ 0x11D;
      }
    }
    AddLaws(result as byte, 0, 0);
    product := (result & 0xFF) as byte;
  }

  method GfPow(value: byte, exponent: nat) returns (result: byte)
    ensures result == Pow(value, exponent)
  {
    result := 1;
    for i := 0 to exponent
      invariant result == Pow(value, i)
    {
      result := GfMul(result, value);
    }
  }

  datatype FieldError = ZeroHasNoInverse

  method GfInv(value: byte) returns (result: Result<byte, FieldError>)
    ensures value == 0 <==> result.Err?
    ensures result.Ok? ==> result.value == Pow(value, 254) && Mul(result.value, value) == 1
  {
    if value == 0 {
      return Err(ZeroHasNoInverse);
    }
    var power := GfPow(value, 254);
    InverseIsPow254(value);
    result := Ok(power);
  }
}
