/**
 When the rows a decoder picks are invertible.

 The codec's generator has identity rows for the data shards and power rows (x^0, x^1, ...) for the parity shards,
 with a different non-zero point x for each parity shard. A choice of k rows reduces to the power rows restricted
 to the data columns that were lost; the lemmas here decide that reduced system.
 */
module Vandermonde {
  import opened Results
  import opened GaloisField
  import opened LinearAlgebra

  function PowRow(x: byte, k: nat): Vector { seq(k, j requires 0 <= j < k => Pow(x, j)) }

  // ----- Polynomials with k distinct roots

  /** The polynomial with coefficients p, constant term first, at x. */
  function Horner(p: Vector, x: byte): byte {
    if p == [] then 0 else Add(p[0], Mul(x, Horner(p[1..], x)))
  }

  lemma {:induction false} ShiftedDot(u: Vector, x: byte, s: nat, p: Vector)
    requires |u| == |p| && forall j :: 0 <= j < |u| ==> u[j] == Pow(x, s + j)
    ensures Dot(u, p) == Mul(Pow(x, s), Horner(p, x))
  {
    hide Mul, Add;
    var w := Pow(x, s);
    if p == [] {
      MulCommutes(w, 0);
      MulZeroLeft(w);
    } else {
      assert u[0] == Pow(x, s + 0);
      ShiftedDot(u[1..], x, s + 1, p[1..]);
      var h := Horner(p[1..], x);
      MulAssociates(w, x, h);
      MulAddRight(w, p[0], Mul(x, h));
    }
  }

  lemma DotPowRow(x: byte, p: Vector)
    ensures Dot(PowRow(x, |p|), p) == Horner(p, x)
  {
    hide Mul, Add, Dot;
    ShiftedDot(PowRow(x, |p|), x, 0, p);
    MulOneLeft(Horner(p, x));
  }

  /** Quotient of p by (x + a). */
  function Quotient(p: Vector, a: byte): Vector {
    if |p| <= 1 then [] else [Horner(p[1..], a)] + Quotient(p[1..], a)
  }

  lemma {:induction false} Division(p: Vector, a: byte, x: byte)
    ensures Horner(p, x) == Add(Mul(Add(x, a), Horner(Quotient(p, a), x)), Horner(p, a))
  {
    hide Mul, Add;
    if |p| <= 1 {
      var c := if p == [] then 0 else p[0];
      MulZero(Add(x, a));
      MulZero(x);
      MulZero(a);
      AddLaws(c, 0, 0);
    } else {
      var p' := p[1..];
      Division(p', a, x);
      var q, h, d := Horner(Quotient(p', a), x), Horner(p', a), Add(x, a);
      assert Quotient(p, a)[1..] == Quotient(p', a);
      MulAddRight(x, Mul(d, q), h);
      MulAddRight(d, h, Mul(x, q));
      MulAssociates(x, d, q);
      MulCommutes(x, d);
      MulAssociates(d, x, q);
      MulAddLeft(x, a, h);
      DivisionSum(p[0], Mul(x, Mul(d, q)), Mul(x, h), Mul(a, h));
    }
  }

  lemma MulZero(a: byte)
    ensures Mul(a, 0) == 0
  {}

  lemma DivisionSum(c: byte, u: byte, v: byte, w: byte)
    ensures Add(c, Add(u, v)) == Add(Add(Add(v, w), u), Add(c, w))
  {
    hide Add;
    AddLaws(v, w, u);
    AddLaws(w, u, 0);
    AddLaws(v, u, w);
    AddLaws(u, v, 0);
    AddLaws(Add(u, v), w, Add(c, w));
    AddLaws(c, w, 0);
    AddLaws(w, w, c);
    AddLaws(w, c, 0);
    AddLaws(w, c, w);
    AddLaws(c, 0, 0);
    AddLaws(c, Add(u, v), 0);
  }

  lemma {:induction false} ZeroQuotient(p: Vector, a: byte)
    requires Horner(p, a) == 0 && Quotient(p, a) == Zeros(|Quotient(p, a)|)
    ensures p == Zeros(|p|)
  {
    hide Mul, Add;
    if |p| == 0 {
    } else {
      if |p| > 1 {
        assert Quotient(p, a)[0] == 0;
        assert Quotient(p[1..], a) == Quotient(p, a)[1..];
        ZeroQuotient(p[1..], a);
      }
      MulZero(a);
      AddLaws(p[0], 0, 0);
      assert p == [p[0]] + p[1..];
    }
  }

  lemma {:induction false} QuotientLength(p: Vector, a: byte)
    ensures |Quotient(p, a)| == if |p| == 0 then 0 else |p| - 1
  {
    if |p| > 1 { QuotientLength(p[1..], a); }
  }

  ghost predicate Distinct(s: seq<byte>) {
    forall i, j :: 0 <= i < j < |s| ==> s[i] != s[j]
  }

  /** A polynomial with as many distinct roots as coefficients is zero. */
  lemma {:induction false} TooManyRoots(p: Vector, roots: seq<byte>)
    requires Distinct(roots) && |roots| >= |p|
    requires forall i :: 0 <= i < |roots| ==> Horner(p, roots[i]) == 0
    ensures p == Zeros(|p|)
    decreases |p|
  {
    hide Mul, Add, Horner, Quotient;
    if |p| > 0 {
      var a, rest := roots[0], roots[1..];
      var q := Quotient(p, a);
      QuotientLength(p, a);
      forall i | 0 <= i < |rest| ensures Horner(q, rest[i]) == 0 {
        var x := rest[i];
        assert x == roots[i + 1];
        Division(p, a, x);
        AddCancel(x, a);
        AddLaws(Mul(Add(x, a), Horner(q, x)), 0, 0);
        NoZeroDivisors(Add(x, a), Horner(q, x));
      }
      TooManyRoots(q, rest);
      ZeroQuotient(p, a);
    }
  }

  // ----- Rows of the codec

  lemma NextByte(x: byte)
    requires x != 255
    ensures (x + 1) as int == x as int + 1
  {}

  /** The byte with a given value. */
  function ByteOf(n: nat): (b: byte)
    requires n < 256
    ensures b as int == n
  {
    if n == 0 then 0
    else
      NextByte(ByteOf(n - 1));
      ByteOf(n - 1) + 1
  }

  /** The evaluation point of shard `row`: the source's `row + 1`, a byte because there are at most 255 shards. */
  function Point(row: nat): byte
    requires row < 255
  {
    ByteOf(row + 1)
  }

  lemma PointsDistinct(i: nat, j: nat)
    requires i < 255 && j < 255
    ensures Point(i) != 0
    ensures i != j ==> Point(i) != Point(j)
  {
    hide ByteOf;
  }

  /** The row of the generator for shard `row`, out of `k` data shards. */
  function CodecRow(k: nat, row: nat): (r: Vector)
    requires row < 255
    ensures |r| == k
  {
    if row < k then UnitRow(k, row) else PowRow(Point(row), k)
  }

  /** Strictly increasing shard numbers, as sorted() over distinct indices leaves them. */
  ghost predicate Increasing(rows: seq<nat>) {
    forall i, j :: 0 <= i < j < |rows| ==> rows[i] < rows[j]
  }

  ghost predicate Choice(k: nat, rows: seq<nat>) {
    |rows| == k > 0 && Increasing(rows) && forall i :: 0 <= i < k ==> rows[i] < 255
  }

  function ChosenRows(k: nat, rows: seq<nat>): Matrix
    requires forall i :: 0 <= i < |rows| ==> rows[i] < 255
  {
    seq(|rows|, i requires 0 <= i < |rows| => CodecRow(k, rows[i]))
  }

  /** Data columns from j on that no chosen row carries. */
  function LostFrom(k: nat, rows: seq<nat>, j: nat): seq<nat>
    decreases k - j
  {
    if j >= k then []
    else if rows != [] && rows[0] == j then LostFrom(k, rows[1..], j + 1)
    else [j] + LostFrom(k, rows, j + 1)
  }

  function Lost(k: nat, rows: seq<nat>): seq<nat> { LostFrom(k, rows, 0) }

  lemma {:induction false} LostOnly(k: nat, rows: seq<nat>, j: nat)
    requires Increasing(rows) && (rows != [] ==> j <= rows[0]) && j <= k
    ensures Increasing(LostFrom(k, rows, j))
    ensures forall b :: 0 <= b < |LostFrom(k, rows, j)| ==>
              j <= LostFrom(k, rows, j)[b] < k && LostFrom(k, rows, j)[b] !in rows
    decreases k - j
  {
    if j < k {
      if rows != [] && rows[0] == j {
        var tail := rows[1..];
        assert rows == [j] + tail;
        LostOnly(k, tail, j + 1);
      } else {
        LostOnly(k, rows, j + 1);
        assert j !in rows;
      }
    }
  }

  lemma {:induction false} LostAll(k: nat, rows: seq<nat>, j: nat, c: nat)
    requires Increasing(rows) && (rows != [] ==> j <= rows[0]) && j <= c < k && c !in rows
    ensures c in LostFrom(k, rows, j)
    decreases k - j
  {
    if rows != [] && rows[0] == j {
      assert c != j;
      LostAll(k, rows[1..], j + 1, c);
    } else if c != j {
      LostAll(k, rows, j + 1, c);
    }
  }

  lemma {:induction false} LostCount(k: nat, rows: seq<nat>, j: nat)
    requires Increasing(rows) && (rows != [] ==> j <= rows[0]) && j <= k
    ensures |LostFrom(k, rows, j)| <= k - j
    ensures forall i :: 0 <= i < |rows| ==> (rows[i] < k <==> i < k - j - |LostFrom(k, rows, j)|)
    decreases k - j
  {
    if j < k {
      if rows != [] && rows[0] == j {
        var tail := rows[1..];
        LostCount(k, tail, j + 1);
        forall i | 0 < i < |rows| ensures rows[i] < k <==> i < k - j - |LostFrom(k, rows, j)| {
          assert rows[i] == tail[i - 1];
        }
      } else {
        LostCount(k, rows, j + 1);
      }
    }
  }

  /**
   The lost columns are exactly the data shards not chosen, there are as many of them as chosen parity shards, and
   the parity shards are the last of the choice.
   */
  ghost predicate LosesExactly(k: nat, rows: seq<nat>, lost: seq<nat>) {
    && |lost| <= |rows| == k
    && Increasing(lost)
    && (forall b :: 0 <= b < |lost| ==> lost[b] < k && lost[b] !in rows)
    && (forall c :: 0 <= c < k && c !in rows ==> c in lost)
    && (forall i :: 0 <= i < k ==> (rows[i] < k <==> i < k - |lost|))
  }

  lemma LostSpec(k: nat, rows: seq<nat>)
    requires Choice(k, rows)
    ensures LosesExactly(k, rows, Lost(k, rows))
  {
    LostOnly(k, rows, 0);
    LostCount(k, rows, 0);
    forall c | 0 <= c < k && c !in rows ensures c in Lost(k, rows) { LostAll(k, rows, 0, c); }
  }

  /** The vector of length k holding z at the lost columns and zero elsewhere. */
  function Embed(k: nat, lost: seq<nat>, z: Vector): (x: Vector)
    requires |lost| == |z| && forall b :: 0 <= b < |lost| ==> lost[b] < k
    ensures |x| == k
  {
    if lost == [] then Zeros(k) else Embed(k, lost[1..], z[1..])[lost[0] := z[0]]
  }

  /** The entries of x at the lost columns. */
  function Restrict(x: Vector, lost: seq<nat>): (z: Vector)
    requires forall b :: 0 <= b < |lost| ==> lost[b] < |x|
    ensures |z| == |lost|
  {
    seq(|lost|, b requires 0 <= b < |lost| => x[lost[b]])
  }

  lemma {:induction false} EmbedAt(k: nat, lost: seq<nat>, z: Vector, b: nat)
    requires |lost| == |z| && Increasing(lost) && forall b :: 0 <= b < |lost| ==> lost[b] < k
    requires b < |lost|
    ensures Embed(k, lost, z)[lost[b]] == z[b]
  {
    if b > 0 {
      assert lost[0] < lost[b];
      EmbedAt(k, lost[1..], z[1..], b - 1);
    }
  }

  lemma {:induction false} EmbedElsewhere(k: nat, lost: seq<nat>, z: Vector, c: nat)
    requires |lost| == |z| && forall b :: 0 <= b < |lost| ==> lost[b] < k
    requires c < k && c !in lost
    ensures Embed(k, lost, z)[c] == 0
  {
    if lost != [] {
      EmbedElsewhere(k, lost[1..], z[1..], c);
    }
  }

  lemma EmbedRestrict(k: nat, lost: seq<nat>, x: Vector)
    requires |x| == k && Increasing(lost) && forall b :: 0 <= b < |lost| ==> lost[b] < k
    requires forall c :: 0 <= c < k && c !in lost ==> x[c] == 0
    ensures Embed(k, lost, Restrict(x, lost)) == x
  {
    hide Embed;
    var y := Embed(k, lost, Restrict(x, lost));
    forall c | 0 <= c < k ensures y[c] == x[c] {
      if c in lost {
        var b :| 0 <= b < |lost| && lost[b] == c;
        EmbedAt(k, lost, Restrict(x, lost), b);
      } else {
        EmbedElsewhere(k, lost, Restrict(x, lost), c);
      }
    }
  }

  lemma {:induction false} DotSet(u: Vector, x: Vector, p: nat, c: byte)
    requires p < |u| == |x| && x[p] == 0
    ensures Dot(u, x[p := c]) == Add(Mul(u[p], c), Dot(u, x))
  {
    hide Mul, Add;
    var y := x[p := c];
    if p == 0 {
      assert y[1..] == x[1..];
      MulZero(u[0]);
      AddLaws(0, Dot(u[1..], x[1..]), 0);
      AddLaws(Dot(u[1..], x[1..]), 0, 0);
    } else {
      assert y[1..] == x[1..][p - 1 := c];
      DotSet(u[1..], x[1..], p - 1, c);
      var a, b, d := Mul(u[0], x[0]), Mul(u[p], c), Dot(u[1..], x[1..]);
      AddLaws(a, b, d);
      AddLaws(b, a, d);
    }
  }

  lemma {:induction false} DotEmbed(u: Vector, lost: seq<nat>, z: Vector)
    requires |lost| == |z| && Increasing(lost) && forall b :: 0 <= b < |lost| ==> lost[b] < |u|
    ensures Dot(u, Embed(|u|, lost, z)) == Dot(Restrict(u, lost), z)
  {
    hide Mul, Add;
    if lost == [] {
      DotAgainstZeros(u, |u|);
    } else {
      var x := Embed(|u|, lost[1..], z[1..]);
      assert lost[0] !in lost[1..];
      EmbedElsewhere(|u|, lost[1..], z[1..], lost[0]);
      DotSet(u, x, lost[0], z[0]);
      DotEmbed(u, lost[1..], z[1..]);
      assert Restrict(u, lost)[1..] == Restrict(u, lost[1..]);
    }
  }

  /** Row i of the reduced system: the i-th chosen parity row, restricted to the lost columns. */
  function MinorRow(k: nat, rows: seq<nat>, lost: seq<nat>, i: nat): (r: Vector)
    requires i < |lost| <= |rows| == k && rows[k - |lost| + i] < 255
    requires forall b :: 0 <= b < |lost| ==> lost[b] < k
    ensures |r| == |lost|
    ensures forall b :: 0 <= b < |lost| ==> r[b] == Pow(Point(rows[k - |lost| + i]), lost[b])
  {
    Restrict(PowRow(Point(rows[k - |lost| + i]), k), lost)
  }

  function Minor(k: nat, rows: seq<nat>, lost: seq<nat>): Matrix
    requires |lost| <= |rows| == k && forall i :: 0 <= i < k ==> rows[i] < 255
    requires forall b :: 0 <= b < |lost| ==> lost[b] < k
  {
    seq(|lost|, i requires 0 <= i < |lost| => MinorRow(k, rows, lost, i))
  }

  /** How a chosen row meets a vector supported on the lost columns. */
  lemma ChosenRowOnEmbedding(k: nat, rows: seq<nat>, lost: seq<nat>, z: Vector, i: nat)
    requires Choice(k, rows) && LosesExactly(k, rows, lost) && |z| == |lost| && i < k
    ensures var d := k - |lost|;
            Dot(CodecRow(k, rows[i]), Embed(k, lost, z)) ==
              if i < d then 0 else Dot(MinorRow(k, rows, lost, i - d), z)
  {
    hide Dot, Pow, Embed, Point;
    if i < k - |lost| {
      DotUnit(Embed(k, lost, z), k, rows[i]);
      EmbedElsewhere(k, lost, z, rows[i]);
    } else {
      DotEmbed(PowRow(Point(rows[i]), k), lost, z);
    }
  }

  lemma MinorKernelLifts(k: nat, rows: seq<nat>, lost: seq<nat>, z: Vector)
    requires Choice(k, rows) && LosesExactly(k, rows, lost) && |z| == |lost|
    requires KernelVector(Minor(k, rows, lost), z)
    ensures KernelVector(ChosenRows(k, rows), Embed(k, lost, z))
  {
    hide Dot, Pow, Embed, MinorRow, CodecRow, Point;
    var d := k - |lost|;
    var x := Embed(k, lost, z);
    var m := ChosenRows(k, rows);
    forall i | 0 <= i < k ensures Dot(m[i], x) == 0 {
      ChosenRowOnEmbedding(k, rows, lost, z, i);
      if i >= d { assert Dot(Minor(k, rows, lost)[i - d], z) == 0; }
    }
    var b :| 0 <= b < |z| && z[b] != 0;
    EmbedAt(k, lost, z, b);
  }

  lemma KernelAvoidsKept(k: nat, rows: seq<nat>, lost: seq<nat>, x: Vector)
    requires Choice(k, rows) && LosesExactly(k, rows, lost) && |x| == k
    requires KernelVector(ChosenRows(k, rows), x)
    ensures Embed(k, lost, Restrict(x, lost)) == x
  {
    hide Dot, Pow, Embed, Point;
    forall c | 0 <= c < k && c !in lost ensures x[c] == 0 {
      var i :| 0 <= i < k && rows[i] == c;
      DotUnit(x, k, c);
      assert Dot(ChosenRows(k, rows)[i], x) == 0;
    }
    EmbedRestrict(k, lost, x);
  }

  lemma KernelRestricts(k: nat, rows: seq<nat>, lost: seq<nat>, x: Vector)
    requires Choice(k, rows) && LosesExactly(k, rows, lost) && |x| == k
    requires KernelVector(ChosenRows(k, rows), x)
    ensures KernelVector(Minor(k, rows, lost), Restrict(x, lost))
  {
    KernelAvoidsKept(k, rows, lost, x);
    hide Dot, Pow, Embed, MinorRow, CodecRow, Point;
    var d := k - |lost|;
    var m := ChosenRows(k, rows);
    var z := Restrict(x, lost);
    hide Restrict;
    forall i | 0 <= i < |lost| ensures Dot(Minor(k, rows, lost)[i], z) == 0 {
      ChosenRowOnEmbedding(k, rows, lost, z, d + i);
      assert Dot(m[d + i], x) == 0;
    }
    if !NonZero(z) {
      assert z == Zeros(|z|);
      EmbedZeros(k, lost);
      assert false;
    }
  }

  lemma {:induction false} EmbedZeros(k: nat, lost: seq<nat>)
    requires forall b :: 0 <= b < |lost| ==> lost[b] < k
    ensures Embed(k, lost, Zeros(|lost|)) == Zeros(k)
  {
    if lost != [] {
      EmbedZeros(k, lost[1..]);
      assert Zeros(|lost|)[1..] == Zeros(|lost[1..]|);
    }
  }

  /** A choice of rows is invertible exactly when its reduced system has only the zero solution. */
  lemma MinorDecides(k: nat, rows: seq<nat>, lost: seq<nat>)
    requires Choice(k, rows) && LosesExactly(k, rows, lost)
    ensures Invertible(ChosenRows(k, rows)) <==>
            forall z :: |z| == |lost| ==> !KernelVector(Minor(k, rows, lost), z)
  {
    hide KernelVector, Embed, MinorRow, CodecRow, Invertible;
    InvertibleIffNoKernel(ChosenRows(k, rows));
    forall z | |z| == |lost| && KernelVector(Minor(k, rows, lost), z)
      ensures KernelVector(ChosenRows(k, rows), Embed(k, lost, z))
    {
      MinorKernelLifts(k, rows, lost, z);
    }
    forall x | |x| == k && KernelVector(ChosenRows(k, rows), x)
      ensures KernelVector(Minor(k, rows, lost), Restrict(x, lost))
    {
      KernelRestricts(k, rows, lost, x);
    }
  }

  // ----- Which losses are always recoverable

  /** At most one data shard missing from the choice: recoverable for every k. */
  lemma OneLossInvertible(k: nat, rows: seq<nat>)
    requires Choice(k, rows) && |Lost(k, rows)| <= 1
    ensures Invertible(ChosenRows(k, rows))
  {
    hide Dot, LostFrom, Pow, Mul, Point, Invertible, ChosenRows;
    var lost := Lost(k, rows);
    LostSpec(k, rows);
    MinorDecides(k, rows, lost);
    forall z | |z| == |lost| ensures !KernelVector(Minor(k, rows, lost), z) {
      if |lost| == 1 {
        var row := MinorRow(k, rows, lost, 0);
        DotOne(row, z, 0);
        PointsDistinct(rows[k - 1], 0);
        PowNonZero(Point(rows[k - 1]), lost[0]);
        NoZeroDivisors(row[0], z[0]);
        assert Minor(k, rows, lost)[0] == row;
      }
    }
  }

  /** Only parity shards in the choice: recoverable for every k, because the points are distinct. */
  lemma AllParityInvertible(k: nat, rows: seq<nat>)
    requires Choice(k, rows) && rows[0] >= k
    ensures Invertible(ChosenRows(k, rows))
  {
    hide Dot, Pow, Mul, Horner, Point;
    var m := ChosenRows(k, rows);
    InvertibleIffNoKernel(m);
    var roots := seq(k, i requires 0 <= i < k => Point(rows[i]));
    forall i, j | 0 <= i < j < k ensures roots[i] != roots[j] { PointsDistinct(rows[i], rows[j]); }
    forall x | |x| == k && KernelVector(m, x) ensures false {
      forall i | 0 <= i < k ensures Horner(x, roots[i]) == 0 {
        DotPowRow(roots[i], x);
        assert rows[0] <= rows[i];
        assert Dot(m[i], x) == 0;
      }
      TooManyRoots(x, roots);
    }
  }

  /**
   Exactly two data shards i < j missing: the choice is recoverable exactly when the two parity points differ in
   their (j - i)-th powers. The numbers 3, 5 and 17 divide 255, so distinct points may agree in such a power.
   */
  lemma TwoLossesExact(k: nat, rows: seq<nat>, lost: seq<nat>)
    requires Choice(k, rows) && LosesExactly(k, rows, lost) && |lost| == 2
    ensures Invertible(ChosenRows(k, rows)) <==>
            Pow(Point(rows[k - 2]), lost[1] - lost[0]) != Pow(Point(rows[k - 1]), lost[1] - lost[0])
  {
    hide Dot, Pow, Mul, Point, Invertible, ChosenRows, KernelVector;
    MinorDecides(k, rows, lost);
    var x, y, gap := Point(rows[k - 2]), Point(rows[k - 1]), lost[1] - lost[0];
    PointsDistinct(rows[k - 2], rows[k - 1]);
    if Pow(x, gap) == Pow(y, gap) {
      var z := [Pow(x, gap), 1];
      MulCommutes(Pow(x, gap), 1);
      MulOneLeft(Pow(x, gap));
      TwoTermKernel(k, rows, lost, z);
      assert z[1] != 0;
    } else {
      forall z | |z| == 2 ensures !KernelVector(Minor(k, rows, lost), z) {
        TwoTermKernel(k, rows, lost, z);
        MulZero(Pow(x, gap));
        if z[1] != 0 && Mul(Pow(x, gap), z[1]) == Mul(Pow(y, gap), z[1]) {
          MulCommutes(Pow(x, gap), z[1]);
          MulCommutes(Pow(y, gap), z[1]);
          MulCancel(z[1], Pow(x, gap), Pow(y, gap));
        }
      }
    }
  }

  lemma TwoTermKernel(k: nat, rows: seq<nat>, lost: seq<nat>, z: Vector)
    requires Choice(k, rows) && LosesExactly(k, rows, lost) && |lost| == |z| == 2
    ensures var gap := lost[1] - lost[0];
            KernelVector(Minor(k, rows, lost), z) <==>
            (z[0] != 0 || z[1] != 0) &&
            z[0] == Mul(Pow(Point(rows[k - 2]), gap), z[1]) == Mul(Pow(Point(rows[k - 1]), gap), z[1])
  {
    hide Dot, Pow, Mul, Point;
    var x, y, gap := Point(rows[k - 2]), Point(rows[k - 1]), lost[1] - lost[0];
    PointsDistinct(rows[k - 2], rows[k - 1]);
    PointsDistinct(rows[k - 1], rows[k - 2]);
    var m := Minor(k, rows, lost);
    TwoTermRow(x, lost[0], gap, MinorRow(k, rows, lost, 0), z);
    TwoTermRow(y, lost[0], gap, MinorRow(k, rows, lost, 1), z);
    assert m == [MinorRow(k, rows, lost, 0), MinorRow(k, rows, lost, 1)];
    assert Annihilates(m, z) <==> Dot(m[0], z) == 0 && Dot(m[1], z) == 0;
    assert NonZero(z) <==> z[0] != 0 || z[1] != 0;
  }

  lemma TwoTermRow(x: byte, i: nat, gap: nat, row: Vector, z: Vector)
    requires x != 0 && |row| == |z| == 2 && row[0] == Pow(x, i) && row[1] == Pow(x, i + gap)
    ensures Dot(row, z) == 0 <==> z[0] == Mul(Pow(x, gap), z[1])
  {
    hide Dot, Pow, Mul, Add;
    DotTwo(row, z, 0, 1);
    PowAdd(x, i, gap);
    MulAssociates(Pow(x, i), Pow(x, gap), z[1]);
    var w := Mul(Pow(x, gap), z[1]);
    AddCancel(Mul(Pow(x, i), z[0]), Mul(Pow(x, i), w));
    PowNonZero(x, i);
    if Mul(Pow(x, i), z[0]) == Mul(Pow(x, i), w) {
      MulCancel(Pow(x, i), z[0], w);
    }
  }

  /** With at most three data shards every choice of k shards is recoverable. */
  lemma SmallCodecInvertible(k: nat, rows: seq<nat>)
    requires Choice(k, rows) && k <= 3
    ensures Invertible(ChosenRows(k, rows))
  {
    hide Dot, LostFrom, Pow, Mul, Point, ChosenRows, Invertible;
    LostSpec(k, rows);
    var lost := Lost(k, rows);
    if |lost| <= 1 {
      OneLossInvertible(k, rows);
    } else if |lost| == k {
      AllParityInvertible(k, rows);
    } else {
      TwoLossesExact(k, rows, lost);
      PointsDistinct(rows[k - 2], rows[k - 1]);
      var x, y := Point(rows[k - 2]), Point(rows[k - 1]);
      SmallPowers(x);
      SmallPowers(y);
      if Square(x) == Square(y) { SquareInjective(x, y); }
    }
  }

  lemma SmallPowers(x: byte)
    ensures Pow(x, 1) == x && Pow(x, 2) == Square(x)
  {
    hide Mul;
    PowOne(x);
    PowAdd(x, 1, 1);
  }

  /** Every choice of k of the k + 2 shards is recoverable. */
  ghost predicate TwoParityComplete(k: nat)
    requires k > 0
  {
    forall rows :: Choice(k, rows) && rows[k - 1] < k + 2 ==> Invertible(ChosenRows(k, rows))
  }

  /** No gap below k makes the powers of the two parity points agree. */
  ghost predicate PowersSeparate(k: nat)
    requires k + 1 < 255
  {
    forall gap :: 1 <= gap < k ==> Pow(Point(k), gap) != Pow(Point(k + 1), gap)
  }

  /** With two parity shards the codec recovers from every k shards exactly when the two points' powers separate. */
  lemma TwoParityExact(k: nat)
    requires 2 <= k && k + 2 <= 255
    ensures TwoParityComplete(k) <==> PowersSeparate(k)
  {
    hide ChosenRows, Invertible, Pow, Point;
    if PowersSeparate(k) {
      forall rows | Choice(k, rows) && rows[k - 1] < k + 2 ensures Invertible(ChosenRows(k, rows)) {
        TwoParityRecovers(k, rows);
      }
    } else {
      var gap :| 1 <= gap < k && Pow(Point(k), gap) == Pow(Point(k + 1), gap);
      TwoParityFails(k, gap);
    }
  }

  lemma TwoParityRecovers(k: nat, rows: seq<nat>)
    requires 2 <= k && k + 2 <= 255 && Choice(k, rows) && rows[k - 1] < k + 2 && PowersSeparate(k)
    ensures Invertible(ChosenRows(k, rows))
  {
    hide LostFrom, Pow, Point, ChosenRows, Invertible;
    LostSpec(k, rows);
    var lost := Lost(k, rows);
    assert rows[k - 2] < rows[k - 1];
    if k >= 3 { assert rows[k - 3] < rows[k - 2]; }
    if |lost| == 2 {
      TwoLossesExact(k, rows, lost);
    } else {
      OneLossInvertible(k, rows);
    }
  }

  /** Every shard except the data shards 0 and gap, out of k + 2. */
  function AllBut(k: nat, gap: nat): seq<nat> {
    seq(k, i requires 0 <= i < k => if i + 1 < gap then i + 1 else i + 2)
  }

  lemma TwoParityFails(k: nat, gap: nat)
    requires 2 <= k && k + 2 <= 255 && 1 <= gap < k
    requires Pow(Point(k), gap) == Pow(Point(k + 1), gap)
    ensures !TwoParityComplete(k)
  {
    hide Pow, Point, ChosenRows, Invertible;
    var rows := AllBut(k, gap);
    assert Choice(k, rows) && rows[k - 1] == k + 1 && rows[k - 2] == k;
    forall c | 0 < c < k && c != gap ensures c in rows {
      assert rows[if c < gap then c - 1 else c - 2] == c;
    }
    TwoLossesExact(k, rows, [0, gap]);
  }

  lemma SumOfRow(row: Vector, z: Vector)
    requires |row| == |z| == 4
    ensures Dot(row, z) ==
            Add(Mul(row[0], z[0]), Add(Mul(row[1], z[1]), Add(Mul(row[2], z[2]), Mul(row[3], z[3]))))
  {
    hide Mul, Add;
    AddLaws(Mul(row[3], z[3]), 0, 0);
    assert row[1..] == [row[1], row[2], row[3]] && z[1..] == [z[1], z[2], z[3]];
    assert row[1..][1..] == [row[2], row[3]] && z[1..][1..] == [z[2], z[3]];
    assert row[1..][1..][1..] == [row[3]] && z[1..][1..][1..] == [z[3]];
    assert Dot(row[1..], z[1..]) == Add(Mul(row[1], z[1]), Dot(row[1..][1..], z[1..][1..]));
    assert Dot(row[1..][1..], z[1..][1..]) == Add(Mul(row[2], z[2]), Dot(row[1..][1..][1..], z[1..][1..][1..]));
    assert Dot(row[1..][1..][1..], z[1..][1..][1..]) == Add(Mul(row[3], z[3]), Dot([row[3]][1..], [z[3]][1..]));
  }

  /** The product (t + 6)(t + 7)(t + 8)(t + 9) at t; its points sum to zero, so it has no cubic term. */
  function Quartic(t: byte): byte {
    Add(Mul(1, 0x64), Add(Mul(t, 0x5A), Add(Mul(Square(t), 0x5B), Mul(Square(Square(t)), 1))))
  }

  lemma QuarticRoots()
    ensures Quartic(6) == 0 && Quartic(7) == 0 && Quartic(8) == 0 && Quartic(9) == 0
  {
    MulOneLeft(0x64);
    QuarticRoot(6, 0x14, 0xd);
    QuarticRoot(7, 0x15, 0xc);
    QuarticRoot(8, 0x40, 0xcd);
    QuarticRoot(9, 0x41, 0xcc);
  }

  lemma QuarticRoot(t: byte, square: byte, fourth: byte)
    requires SquareMap(t) == square && SquareMap(square) == fourth
    requires 0x64 ^ Product(t, 0x5A) ^ Product(square, 0x5B) ^ fourth == 0
    ensures Quartic(t) == 0
  {
    hide Mul, SquareMap, Product;
    SquareIsMap(t);
    SquareIsMap(square);
    MulIsProduct(t, 0x5A);
    MulIsProduct(square, 0x5B);
    MulOneLeft(0x64);
    MulOneLeft(fourth);
    MulCommutes(fourth, 1);
  }

  lemma QuarticRow(x: byte, z: Vector)
    requires Quartic(x) == 0 && z == [0x64, 0x5A, 0x5B, 1]
    ensures Dot([Pow(x, 0), Pow(x, 1), Pow(x, 2), Pow(x, 4)], z) == 0
  {
    assert Pow(x, 0) == 1;
    hide Mul, Add, Dot, Pow;
    SumOfRow([Pow(x, 0), Pow(x, 1), Pow(x, 2), Pow(x, 4)], z);
    SmallPowers(x);
    PowAdd(x, 2, 2);
  }

  const FAILING_CHOICE: seq<nat> := [3, 5, 6, 7, 8]
  const FAILING_LOSS: seq<nat> := [0, 1, 2, 4]

  lemma FailingShape()
    ensures Choice(5, FAILING_CHOICE) && LosesExactly(5, FAILING_CHOICE, FAILING_LOSS)
  {}

  lemma FailingPoint(i: nat)
    requires i < 4
    ensures Quartic(Point(FAILING_CHOICE[1 + i])) == 0
  {
    QuarticRoots();
    hide Quartic;
    assert Point(5) == 6 && Point(6) == 7 && Point(7) == 8 && Point(8) == 9;
  }

  lemma FailingRow(i: nat, z: Vector)
    requires i < 4 && z == [0x64, 0x5A, 0x5B, 1]
    ensures Dot(MinorRow(5, FAILING_CHOICE, FAILING_LOSS, i), z) == 0
  {
    FailingPoint(i);
    hide *;
    var x, r := Point(FAILING_CHOICE[1 + i]), MinorRow(5, FAILING_CHOICE, FAILING_LOSS, i);
    assert r == [r[0], r[1], r[2], r[3]];
    QuarticRow(x, z);
  }

  /**
   "Any k of n" fails: the codec with 5 data and 4 parity shards cannot recover from shards 3, 5, 6, 7 and 8.
   */
  lemma FiveOfNineFails()
    ensures Choice(5, FAILING_CHOICE) && !Invertible(ChosenRows(5, FAILING_CHOICE))
  {
    FailingShape();
    hide Dot, MinorRow, ChosenRows, Invertible;
    var z: Vector := [0x64, 0x5A, 0x5B, 1];
    forall i | 0 <= i < 4 ensures Dot(MinorRow(5, FAILING_CHOICE, FAILING_LOSS, i), z) == 0 {
      FailingRow(i, z);
    }
    assert z[3] != 0;
    assert KernelVector(Minor(5, FAILING_CHOICE, FAILING_LOSS), z);
    MinorDecides(5, FAILING_CHOICE, FAILING_LOSS);
  }
}
