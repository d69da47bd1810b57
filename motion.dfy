/** Headings and per-frame displacement of the ball.

    Every heading the ball can have is an odd multiple of pi/4: it starts at
    (2i-1)*pi/4 and is only ever changed to pi - a or -a. A heading is
    therefore kept as the integer k with angle = k*pi/4. k is never reduced
    modulo 8, exactly as the floating-point angle is never reduced. */
module Motion {

  /** The heading is one of the four diagonals. */
  predicate Diagonal(k: int)
  {
    k % 2 == 1
  }

  /** cos(k*pi/4) > 0 (the ball moves right). */
  predicate CosPositive(k: int)
  {
    k % 8 == 7 || k % 8 == 0 || k % 8 == 1
  }

  /** sin(k*pi/4) > 0 (the ball moves down, since y grows downwards). */
  predicate SinPositive(k: int)
  {
    k % 8 == 1 || k % 8 == 2 || k % 8 == 3
  }

  /** Bounce off a side wall: angle := pi - angle. The horizontal component
      changes sign, the vertical one is kept. */
  function ReflectSide(k: int): (r: int)
    ensures Diagonal(k) ==> Diagonal(r)
    ensures Diagonal(k) ==> (CosPositive(r) <==> !CosPositive(k))
    ensures SinPositive(r) <==> SinPositive(k)
  {
    FlipResidue(k);
    ParityKept(k);
    OddResidue(k);
    4 - k
  }

  /** Bounce off a bat: angle := -angle. The vertical component changes
      sign, the horizontal one is kept. */
  function ReflectBat(k: int): (r: int)
    ensures Diagonal(k) ==> Diagonal(r)
    ensures Diagonal(k) ==> (SinPositive(r) <==> !SinPositive(k))
    ensures CosPositive(r) <==> CosPositive(k)
    ensures r != k <==> k != 0
  {
    NegResidue(k);
    ParityKept(k);
    OddResidue(k);
    -k
  }

  /** Residue modulo 8 of the negation of a heading. */
  lemma NegResidue(k: int)
    ensures (-k) % 8 == (if k % 8 == 0 then 0 else 8 - k % 8)
  {
  }

  /** Residue modulo 8 of pi minus a heading. */
  lemma FlipResidue(k: int)
    ensures (4 - k) % 8 == (if k % 8 <= 4 then 4 - k % 8 else 12 - k % 8)
  {
  }

  /** Negation and pi minus a heading keep its parity. */
  lemma ParityKept(k: int)
    ensures (-k) % 2 == k % 2 && (4 - k) % 2 == k % 2
  {
  }

  /** A heading is odd exactly when its residue modulo 8 is. */
  lemma OddResidue(k: int)
    ensures k % 2 == (k % 8) % 2
  {
  }

  /** The heading chosen by a serve, for a draw i in 1..4: (2i-1)*pi/4.
      The four draws give the four diagonals: i in {1, 2} moves down,
      i in {1, 4} moves right. */
  function Heading(i: int): (k: int)
    requires 1 <= i <= 4
    ensures Diagonal(k) && 0 < k < 8
    ensures SinPositive(k) <==> i <= 2
    ensures CosPositive(k) <==> (i == 1 || i == 4)
  {
    2 * i - 1
  }

  /** One coordinate of the ball after a frame: v plus or minus
      8*cos(pi/4) = 4*sqrt(2) = 5.65685..., truncated toward zero. */
  function Advance(v: int, positive: bool): (r: int)
    ensures positive ==> 5 <= r - v <= 6
    ensures !positive ==> 5 <= v - r <= 6
  {
    if positive then (if v >= -5 then v + 5 else v + 6)
    else (if v >= 6 then v - 6 else v - 5)
  }

  /** x truncated toward zero, as a cast of a float to an integer does. */
  function TruncReal(x: real): int
  {
    if x >= 0.0 then x.Floor else -((-x).Floor)
  }

  /** The integer table in Advance agrees with truncating v + c and v - c
      toward zero for every real offset c strictly between 5 and 6;
      8*cos(pi/4) = 4*sqrt(2) is such an offset. */
  lemma AdvanceTruncates(v: int, c: real)
    requires 5.0 < c < 6.0
    ensures Advance(v, true) == TruncReal(v as real + c)
    ensures Advance(v, false) == TruncReal(v as real - c)
  {
  }
}
