/** Standard-normal variates built from a uniform generator.
    The C++ hierarchy has an abstract NormalGenerator that refers, without owning it, to a
    UniformGenerator; its one variant hook, getNormal, is implemented by PolarMarsaglia, BoxMuller,
    Tocher and NormalFromUniform12, and the invariant routines getNormalVector and getNormalMatrix
    are built on that hook alone. Here the hierarchy is one class whose `kind` selects the hook's
    body. The C library's log and sqrt are left uninterpreted: they are function-valued constants,
    and the few facts about them that a property needs are stated as preconditions of that
    property's lemma. */
module NormalGenerators {
  import opened UniformGenerators
  import opened NormalRuns

  /** The concrete generator classes modelled here. */
  datatype NormalKind = PolarMarsaglia | BoxMuller | Tocher | NormalFromUniform12

  /** What decides a normal draw besides the uniform draws: the class, log, sqrt, and the
      constant Tocher multiplies by. */
  datatype Transform = Transform(kind: NormalKind, log: real -> real, sqrt: real -> real, magicNumber: real)

  // Facts about the C library's log and sqrt, assumed only by the lemmas that name them.

  ghost predicate LogNonNegativeFromOne(log: real -> real) {
    forall x :: x >= 1.0 ==> log(x) >= 0.0
  }

  ghost predicate LogNonPositiveUpToOne(log: real -> real) {
    forall x :: 0.0 < x <= 1.0 ==> log(x) <= 0.0
  }

  ghost predicate SqrtNonNegative(sqrt: real -> real) {
    forall x :: x >= 0.0 ==> sqrt(x) >= 0.0
  }

  // ---------------------------------------------------------------------------------------------
  // The polar rejection method, shared by PolarMarsaglia and BoxMuller

  /** V = 2U - 1 maps a uniform on [0,1) to one on [-1,1). */
  function Polar(u: real): real {
    2.0 * u - 1.0
  }

  lemma SquareNonNegative(x: real)
    ensures x * x >= 0.0
  {
  }

  function PolarW(u1: real, u2: real): real {
    Polar(u1) * Polar(u1) + Polar(u2) * Polar(u2)
  }

  /** The loop body's arithmetic computes PolarW. */
  lemma PolarStep(u1: real, u2: real, v1: real, v2: real, w: real)
    requires v1 == 2.0 * u1 - 1.0 && v2 == 2.0 * u2 - 1.0 && w == v1 * v1 + v2 * v2
    ensures v1 == Polar(u1) && v2 == Polar(u2) && w == PolarW(u1, u2) && w >= 0.0
  {
    SquareNonNegative(v1);
    SquareNonNegative(v2);
  }

  /** The do-while loop ends when `W > 1.0` is false. */
  predicate PolarAccepts(u1: real, u2: real) {
    !(PolarW(u1, u2) > 1.0)
  }

  /** Attempt a (counting from 0) of a loop that starts at draw d reads draws d+2a and d+2a+1;
      this says they exist and are accepted. */
  ghost predicate AcceptsAt(src: Source, d: nat, a: nat)
    requires SourceValid(src)
  {
    Available(src, d + 2 * a + 2) && PolarAccepts(Value(src, d + 2 * a), Value(src, d + 2 * a + 1))
  }

  /** The rejection loop started at draw d ends. */
  ghost predicate PolarTerminates(src: Source, d: nat)
    requires SourceValid(src)
  {
    exists a: nat :: AcceptsAt(src, d, a)
  }

  lemma {:induction false} LeastAcceptingAttempt(src: Source, d: nat, w: nat)
    requires SourceValid(src) && AcceptsAt(src, d, w)
    ensures exists a: nat :: AcceptsAt(src, d, a) && forall b: nat :: b < a ==> !AcceptsAt(src, d, b)
    decreases w
  {
    if exists b: nat :: b < w && AcceptsAt(src, d, b) {
      var b: nat :| b < w && AcceptsAt(src, d, b);
      LeastAcceptingAttempt(src, d, b);
    }
  }

  /** The attempt on which the rejection loop ends: the first accepted one. */
  ghost function FirstAccept(src: Source, d: nat): (a: nat)
    requires SourceValid(src) && PolarTerminates(src, d)
    ensures AcceptsAt(src, d, a)
    ensures forall b: nat :: b < a ==> !AcceptsAt(src, d, b)
  {
    var w: nat :| AcceptsAt(src, d, w);
    LeastAcceptingAttempt(src, d, w);
    var a: nat :| AcceptsAt(src, d, a) && forall b: nat :: b < a ==> !AcceptsAt(src, d, b);
    a
  }

  /** The common factor sqrt(-2 log(W) / W) of N1 and N2. */
  function WFunction(t: Transform, w: real): real
    requires w != 0.0
  {
    t.sqrt(-2.0 * t.log(w) / w)
  }

  /** N1 = V1 * sqrt(-2 log(W) / W), the normal getNormal returns. */
  function PolarNormal(t: Transform, u1: real, u2: real): real
    requires PolarW(u1, u2) != 0.0
  {
    Polar(u1) * WFunction(t, PolarW(u1, u2))
  }

  /** N2 = V2 * sqrt(-2 log(W) / W), the second normal of the pair, kept but not returned. */
  function PolarCompanion(t: Transform, u1: real, u2: real): real
    requires PolarW(u1, u2) != 0.0
  {
    Polar(u2) * WFunction(t, PolarW(u1, u2))
  }

  /** The products the method body forms are the pair of normals. */
  lemma PolarOutput(t: Transform, u1: real, u2: real, v1: real, v2: real, w: real, wFunction: real)
    requires v1 == Polar(u1) && v2 == Polar(u2) && w == PolarW(u1, u2) && w != 0.0
    requires wFunction == WFunction(t, w)
    ensures v1 * wFunction == PolarNormal(t, u1, u2) && v2 * wFunction == PolarCompanion(t, u1, u2)
  {
  }

  // ---------------------------------------------------------------------------------------------
  // Tocher's method

  function TocherX(t: Transform, u1: real, u2: real): real
    requires u2 != 1.0
  {
    t.magicNumber * t.log((1.0 + u1) / (1.0 - u2))
  }

  // ---------------------------------------------------------------------------------------------
  // The twelve-uniform method

  /** The sum of s, added left to right as the `Z +=` loop does. */
  function Sum(s: seq<real>): real {
    if s == [] then 0.0 else Sum(s[..|s| - 1]) + s[|s| - 1]
  }

  // ---------------------------------------------------------------------------------------------
  // One getNormal call and many

  /** The polar loop started at draw d ends, and the W it accepts is not 0 (the C++ quotient
      -2 log(W)/W is NaN there). */
  ghost predicate PolarCanDraw(src: Source, d: nat)
    requires SourceValid(src)
  {
    PolarTerminates(src, d) &&
    var a := FirstAccept(src, d);
    PolarW(Value(src, d + 2 * a), Value(src, d + 2 * a + 1)) != 0.0
  }

  /** Tocher's two draws exist and its divisor 1 - U2 is not 0. */
  predicate TocherCanDraw(src: Source, d: nat)
    requires SourceValid(src)
  {
    Available(src, d + 2) && Value(src, d + 1) != 1.0
  }

  /** Whether a getNormal call that starts at draw d returns a real number. */
  ghost predicate CanDraw(t: Transform, src: Source, d: nat)
    requires SourceValid(src)
  {
    match t.kind
    case PolarMarsaglia | BoxMuller => PolarCanDraw(src, d)
    case Tocher => TocherCanDraw(src, d)
    case NormalFromUniform12 => Available(src, d + 12)
  }

  /** The polar methods' call: N1 from the first accepted attempt; Z is not touched. */
  ghost function PolarDraw(t: Transform, src: Source, d: nat, z: real): Draw
    requires SourceValid(src) && PolarCanDraw(src, d)
  {
    var a := FirstAccept(src, d);
    Draw(PolarNormal(t, Value(src, d + 2 * a), Value(src, d + 2 * a + 1)), d + 2 * a + 2, z)
  }

  /** The accepted attempt the polar loop leaves in its locals yields PolarDraw and its companion. */
  lemma PolarAccepted(t: Transform, src: Source, d: nat, z: real,
                      u1: real, u2: real, v1: real, v2: real, w: real, wFunction: real)
    requires SourceValid(src) && PolarCanDraw(src, d)
    requires var a := FirstAccept(src, d);
      u1 == Value(src, d + 2 * a) && u2 == Value(src, d + 2 * a + 1)
    requires v1 == Polar(u1) && v2 == Polar(u2) && w == PolarW(u1, u2)
    requires wFunction == WFunction(t, w)
    ensures PolarDraw(t, src, d, z) == Draw(v1 * wFunction, d + 2 * FirstAccept(src, d) + 2, z)
    ensures v2 * wFunction == PolarCompanion(t, u1, u2)
  {
    PolarOutput(t, u1, u2, v1, v2, w, wFunction);
  }

  /** Tocher's call: -X or X by the side of 0.5 that U2 falls on, also left in Z. */
  function TocherDraw(t: Transform, src: Source, d: nat): Draw
    requires SourceValid(src) && TocherCanDraw(src, d)
  {
    var x := TocherX(t, Value(src, d), Value(src, d + 1));
    var n := if Value(src, d + 1) <= 0.5 then -x else x;
    Draw(n, d + 2, n)
  }

  /** The draw Tocher's getNormal computes step by step is TocherDraw. */
  lemma TocherOutput(t: Transform, src: Source, d: nat, u1: real, u2: real, x: real, z: real)
    requires SourceValid(src) && TocherCanDraw(src, d)
    requires u1 == Value(src, d) && u2 == Value(src, d + 1)
    requires x == t.magicNumber * t.log((1.0 + u1) / (1.0 - u2))
    requires z == if u2 <= 0.5 then -x else x
    ensures x == TocherX(t, u1, u2) && TocherDraw(t, src, d) == Draw(z, d + 2, z)
  {
  }

  /** The twelve-uniform call: Z plus twelve draws less 6, kept in Z. */
  function Uniform12Draw(src: Source, d: nat, z: real): Draw
    requires SourceValid(src) && Available(src, d + 12)
  {
    var z' := z + Sum(UniformVector(src, d, 12, 0.0, 1.0)) - 6.0;
    Draw(z', d + 12, z')
  }

  /** What one getNormal call returns, and where it leaves the uniform stream and Z. */
  ghost function NextNormal(t: Transform, src: Source, d: nat, z: real): Draw
    requires SourceValid(src) && CanDraw(t, src, d)
  {
    match t.kind
    case PolarMarsaglia | BoxMuller => PolarDraw(t, src, d, z)
    case Tocher => TocherDraw(t, src, d)
    case NormalFromUniform12 => Uniform12Draw(src, d, z)
  }

  /** getNormal as the step the base-class routines repeat. */
  ghost function GetNormalStep(t: Transform, src: Source): Step
    requires SourceValid(src)
  {
    (d: nat, z: real) => if CanDraw(t, src, d) then Some(NextNormal(t, src, d, z)) else None
  }

  // ---------------------------------------------------------------------------------------------
  // Properties of each method

  /** Each polar attempt reads two uniforms; the loop ends on the first attempt whose W is at most
      1, so the accepted W lies in (0, 1]; every earlier attempt had W > 1. The Z member is
      untouched. */
  lemma PolarAcceptance(t: Transform, src: Source, d: nat, z: real)
    requires SourceValid(src) && (t.kind.PolarMarsaglia? || t.kind.BoxMuller?) && CanDraw(t, src, d)
    ensures var a := FirstAccept(src, d);
      var u1 := Value(src, d + 2 * a);
      var u2 := Value(src, d + 2 * a + 1);
      var r := NextNormal(t, src, d, z);
      r.next == d + 2 * a + 2 && r.z == z &&
      0.0 < PolarW(u1, u2) <= 1.0 &&
      r.value == Polar(u1) * t.sqrt(-2.0 * t.log(PolarW(u1, u2)) / PolarW(u1, u2)) &&
      forall b :: 0 <= b < a ==> PolarW(Value(src, d + 2 * b), Value(src, d + 2 * b + 1)) > 1.0
  {
    var a := FirstAccept(src, d);
    SquareNonNegative(Polar(Value(src, d + 2 * a)));
    SquareNonNegative(Polar(Value(src, d + 2 * a + 1)));
    forall b | 0 <= b < a
      ensures PolarW(Value(src, d + 2 * b), Value(src, d + 2 * b + 1)) > 1.0
    {
      assert !AcceptsAt(src, d, b);
    }
  }

  /** BoxMuller's getNormal runs the same rejection loop as PolarMarsaglia's: on the same stream it
      returns the same value after the same draws. */
  lemma BoxMullerIsPolar(t: Transform, src: Source, d: nat, z: real)
    requires SourceValid(src) && t.kind.BoxMuller?
    ensures CanDraw(t, src, d) == CanDraw(t.(kind := PolarMarsaglia), src, d)
    ensures CanDraw(t, src, d) ==> NextNormal(t, src, d, z) == NextNormal(t.(kind := PolarMarsaglia), src, d, z)
  {
  }

  lemma DivideNonNegative(x: real, w: real)
    requires x >= 0.0 && w > 0.0
    ensures x / w >= 0.0
  {
  }

  /** When log is non-positive on (0, 1], the argument of sqrt for an accepted W is non-negative. */
  lemma PolarSqrtArgumentNonNegative(log: real -> real, w: real)
    requires LogNonPositiveUpToOne(log) && 0.0 < w <= 1.0
    ensures -2.0 * log(w) / w >= 0.0
  {
    var x := -2.0 * log(w);
    DivideNonNegative(x, w);
    calc { -2.0 * log(w) / w; == x / w; >= 0.0; }
  }

  lemma RatioAtLeastOne(x: real, y: real)
    requires 0.0 < y <= x
    ensures x / y >= 1.0
  {
  }

  /** For draws in [0,1), the argument (1+U1)/(1-U2) of Tocher's log is defined and at least 1. */
  lemma TocherLogArgumentAtLeastOne(u1: real, u2: real)
    requires 0.0 <= u1 < 1.0 && 0.0 <= u2 < 1.0
    ensures 1.0 - u2 != 0.0 && (1.0 + u1) / (1.0 - u2) >= 1.0
  {
    var x := 1.0 + u1;
    var y := 1.0 - u2;
    RatioAtLeastOne(x, y);
    calc { (1.0 + u1) / (1.0 - u2); == x / y; >= 1.0; }
  }

  lemma MultiplyNonNegative(x: real, y: real)
    requires x >= 0.0 && y >= 0.0
    ensures x * y >= 0.0
  {
  }

  /** Tocher reads exactly two uniforms; with a rand()-based source the call always returns a real
      number, X = magicNumber * log((1+U1)/(1-U2)) is non-negative, and the result is -X when
      U2 <= 0.5 and +X otherwise. The result is also left in Z. */
  lemma TocherSignRule(t: Transform, src: Source, d: nat, z: real)
    requires SourceValid(src) && !src.kind.MSSecureRand? && t.kind.Tocher? && Available(src, d + 2)
    requires LogNonNegativeFromOne(t.log) && SqrtNonNegative(t.sqrt) && t.magicNumber == t.sqrt(3.1415 / 8.0)
    ensures CanDraw(t, src, d)
    ensures var u2 := Value(src, d + 1);
      var x := TocherX(t, Value(src, d), u2);
      var r := NextNormal(t, src, d, z);
      r.next == d + 2 && r.z == r.value && x >= 0.0 &&
      (u2 <= 0.5 ==> r.value == -x && r.value <= 0.0) &&
      (u2 > 0.5 ==> r.value == x && r.value >= 0.0)
  {
    RandDrawInUnitInterval(src, d);
    RandDrawInUnitInterval(src, d + 1);
    var u1, u2 := Value(src, d), Value(src, d + 1);
    TocherLogArgumentAtLeastOne(u1, u2);
    var l := t.log((1.0 + u1) / (1.0 - u2));
    MultiplyNonNegative(t.magicNumber, l);
  }

  lemma {:induction false} SumBounds(s: seq<real>)
    requires forall i :: 0 <= i < |s| ==> 0.0 <= s[i] < 1.0
    ensures 0.0 <= Sum(s) && (s != [] ==> Sum(s) < |s| as real)
  {
    if s != [] {
      SumBounds(s[..|s| - 1]);
    }
  }

  /** NormalFromUniform12 reads exactly twelve uniforms, adds them to Z, subtracts 6 and returns
      the new Z. With a rand()-based source the result lies in [Z - 6, Z + 6). */
  lemma Uniform12Step(t: Transform, src: Source, d: nat, z: real)
    requires SourceValid(src) && t.kind.NormalFromUniform12? && Available(src, d + 12)
    ensures CanDraw(t, src, d)
    ensures var r := NextNormal(t, src, d, z);
      r.next == d + 12 && r.value == r.z &&
      r.z == z + Sum(UniformVector(src, d, 12, 0.0, 1.0)) - 6.0 &&
      (!src.kind.MSSecureRand? ==> z - 6.0 <= r.value < z + 6.0)
  {
    if !src.kind.MSSecureRand? {
      var us := UniformVector(src, d, 12, 0.0, 1.0);
      forall i | 0 <= i < 12 ensures 0.0 <= us[i] < 1.0 {
        RandDrawInUnitInterval(src, d + i);
        assert us[i] == Affine(0.0, 1.0, Value(src, d + i)) == Value(src, d + i);
      }
      SumBounds(us);
    }
  }

  /** Sum over the k calls' draw sums, each less 6. */
  function Excess(src: Source, d: nat, k: nat): real
    requires SourceValid(src) && Available(src, d + 12 * k)
  {
    if k == 0 then 0.0
    else Excess(src, d, k - 1) + (Sum(UniformVector(src, d + 12 * (k - 1), 12, 0.0, 1.0)) - 6.0)
  }

  /** Z is never reset: after k calls it is Z0 + the sum over the calls of (their draw sum - 6),
      and call i returns that running total after i+1 calls. */
  lemma {:induction false} Uniform12Accumulates(t: Transform, src: Source, d: nat, z0: real, k: nat)
    requires SourceValid(src) && t.kind.NormalFromUniform12? && Available(src, d + 12 * k)
    ensures Normals(GetNormalStep(t, src), d, z0, k).Some?
    ensures var r := Normals(GetNormalStep(t, src), d, z0, k).value;
      r.next == d + 12 * k && r.z == z0 + Excess(src, d, k) &&
      forall i :: 0 <= i < k ==> r.values[i] == z0 + Excess(src, d, i + 1)
  {
    if k > 0 {
      var step := GetNormalStep(t, src);
      Uniform12Accumulates(t, src, d, z0, k - 1);
      var p := Normals(step, d, z0, k - 1).value;
      Uniform12Step(t, src, p.next, p.z);
      var dr := NextNormal(t, src, p.next, p.z);
      assert step(p.next, p.z) == Some(dr);
      var r := Normals(step, d, z0, k).value;
      assert r == Run(p.values + [dr.value], dr.next, dr.z);
      assert dr.z == z0 + Excess(src, d, k);
      forall i | 0 <= i < k ensures r.values[i] == z0 + Excess(src, d, i + 1) {
        if i < k - 1 {
          assert r.values[i] == p.values[i];
        }
      }
    }
  }

  // ---------------------------------------------------------------------------------------------
  // Corrected definitions (see Findings in the README)

  /** The twelve-uniform normal the class comment describes: the draws' sum less 6, with no
      carried state. */
  function CentralLimitNormal(us: seq<real>): real
    requires |us| == 12
  {
    Sum(us) - 6.0
  }

  lemma CentralLimitNormalInRange(us: seq<real>)
    requires |us| == 12 && forall i :: 0 <= i < 12 ==> 0.0 <= us[i] < 1.0
    ensures -6.0 <= CentralLimitNormal(us) < 6.0
  {
    SumBounds(us);
  }

  lemma {:induction false} SumOfConstant(s: seq<real>, c: real)
    requires forall i :: 0 <= i < |s| ==> s[i] == c
    ensures Sum(s) == |s| as real * c
  {
    if s != [] {
      SumOfConstant(s[..|s| - 1], c);
      var k := (|s| - 1) as real;
      calc { Sum(s); == k * c + c; == (k + 1.0) * c; == |s| as real * c; }
    }
  }

  /** rand() returning 24576 twenty-four times makes every draw 0.75. As written, two calls
      starting from Z = 0 return 3 and then 6 (outside [-6, 6)); the intended method returns 3
      both times. */
  lemma Uniform12DriftExample(t: Transform)
    requires t.kind.NormalFromUniform12?
    ensures var src := Source(TerribleRand, seq(24, _ => 24576), 1.0 + RAND_MAX as real, 0, 0.0);
      Normals(GetNormalStep(t, src), 0, 0.0, 2).Some? &&
      Normals(GetNormalStep(t, src), 0, 0.0, 2).value.values == [3.0, 6.0] &&
      CentralLimitNormal(UniformVector(src, 0, 12, 0.0, 1.0)) == 3.0 &&
      CentralLimitNormal(UniformVector(src, 12, 12, 0.0, 1.0)) == 3.0
  {
    var src := Source(TerribleRand, seq(24, _ => 24576), 1.0 + RAND_MAX as real, 0, 0.0);
    Uniform12Accumulates(t, src, 0, 0.0, 2);
    var v0 := UniformVector(src, 0, 12, 0.0, 1.0);
    var v1 := UniformVector(src, 12, 12, 0.0, 1.0);
    forall i | 0 <= i < 12
      ensures v0[i] == 0.75 && v1[i] == 0.75
    {
      assert src.rands[i] == 24576 && src.rands[12 + i] == 24576;
      assert Value(src, i) == 0.75 && Value(src, 12 + i) == 0.75;
      assert v0[i] == Affine(0.0, 1.0, Value(src, i));
      assert v1[i] == Affine(0.0, 1.0, Value(src, 12 + i));
    }
    SumOfConstant(v0, 0.75);
    SumOfConstant(v1, 0.75);
    assert Excess(src, 0, 1) == 3.0;
    assert Excess(src, 0, 2) == 6.0;
  }

  /** The guarded acceptance test: the loop's W <= 1 with W > 0 added, so an attempt at the
      centre is drawn again. */
  predicate GuardedAccepts(u1: real, u2: real) {
    0.0 < PolarW(u1, u2) <= 1.0
  }

  /** Under the guarded test the quotient -2 log(W)/W is always defined, and non-negative when
      log is non-positive on (0, 1]. */
  lemma GuardedFactorDefined(log: real -> real, u1: real, u2: real)
    requires GuardedAccepts(u1, u2) && LogNonPositiveUpToOne(log)
    ensures PolarW(u1, u2) != 0.0 && -2.0 * log(PolarW(u1, u2)) / PolarW(u1, u2) >= 0.0
  {
    PolarSqrtArgumentNonNegative(log, PolarW(u1, u2));
  }

  /** As written, rand() returning 16384 twice gives U1 = U2 = 0.5, so V1 = V2 = 0 and W = 0: the
      loop accepts, and -2 log(W)/W divides by zero. The guarded test rejects the attempt. */
  lemma PolarAcceptsZeroW()
    ensures var src := Source(TerribleRand, [16384, 16384], 1.0 + RAND_MAX as real, 0, 0.0);
      AcceptsAt(src, 0, 0) && PolarW(Value(src, 0), Value(src, 1)) == 0.0 &&
      !GuardedAccepts(Value(src, 0), Value(src, 1))
  {
    var src := Source(TerribleRand, [16384, 16384], 1.0 + RAND_MAX as real, 0, 0.0);
    assert Value(src, 0) == 0.5 && Value(src, 1) == 0.5;
  }

  // ---------------------------------------------------------------------------------------------

  /** A normal generator object. Fields a subclass does not declare are zero: PolarMarsaglia
      uses U1, U2, V1, V2, W, N1, N2; BoxMuller W, N1, N2 and the constant tpi; Tocher U1, U2, X,
      Z and magicNumber; NormalFromUniform12 only Z, which it keeps across calls. */
  class NormalGenerator {
    const kind: NormalKind
    const ug: UniformGenerator
    const log: real -> real
    const sqrt: real -> real
    const tpi: real
    const magicNumber: real
    var U1: real
    var U2: real
    var V1: real
    var V2: real
    var W: real
    var N1: real
    var N2: real
    var X: real
    var Z: real

    ghost predicate Valid()
      reads this, ug
    {
      ug.Valid() &&
      (kind.BoxMuller? ==> tpi == 2.0 * 3.1415) &&
      (kind.Tocher? ==> magicNumber == sqrt(3.1415 / 8.0))
    }

    function Spec(): Transform {
      Transform(kind, log, sqrt, magicNumber)
    }

    constructor PolarMarsaglia(uniformGen: UniformGenerator, log: real -> real, sqrt: real -> real)
      requires uniformGen.Valid()
      ensures Valid() && kind == NormalKind.PolarMarsaglia && ug == uniformGen
      ensures this.log == log && this.sqrt == sqrt
    {
      kind := NormalKind.PolarMarsaglia;
      ug := uniformGen;
      this.log, this.sqrt := log, sqrt;
      tpi, magicNumber := 0.0, 0.0;
      U1, U2, V1, V2, W, N1, N2, X, Z := 0.0, 0.0, 0.0, 0.0, 0.0, 0.0, 0.0, 0.0, 0.0;
    }

    /** tpi = 2 * 3.1415 is set but read only by the commented-out closed form. */
    constructor BoxMuller(uniformGen: UniformGenerator, log: real -> real, sqrt: real -> real)
      requires uniformGen.Valid()
      ensures Valid() && kind == NormalKind.BoxMuller && ug == uniformGen && tpi == 2.0 * 3.1415
      ensures this.log == log && this.sqrt == sqrt && magicNumber == 0.0 && Z == 0.0
    {
      kind := NormalKind.BoxMuller;
      ug := uniformGen;
      this.log, this.sqrt := log, sqrt;
      tpi, magicNumber := 2.0 * 3.1415, 0.0;
      U1, U2, V1, V2, W, N1, N2, X, Z := 0.0, 0.0, 0.0, 0.0, 0.0, 0.0, 0.0, 0.0, 0.0;
    }

    /** magicNumber = sqrt(3.1415 / 8) is fixed here, once. */
    constructor Tocher(uniformGen: UniformGenerator, log: real -> real, sqrt: real -> real)
      requires uniformGen.Valid()
      ensures Valid() && kind == NormalKind.Tocher && ug == uniformGen
      ensures this.log == log && this.sqrt == sqrt && magicNumber == sqrt(3.1415 / 8.0)
    {
      kind := NormalKind.Tocher;
      ug := uniformGen;
      this.log, this.sqrt := log, sqrt;
      tpi, magicNumber := 0.0, sqrt(3.1415 / 8.0);
      U1, U2, V1, V2, W, N1, N2, X, Z := 0.0, 0.0, 0.0, 0.0, 0.0, 0.0, 0.0, 0.0, 0.0;
    }

    /** The constructor does not initialise Z; `indeterminate` is the value it happens to hold. */
    constructor NormalFromUniform12(uniformGen: UniformGenerator, log: real -> real, sqrt: real -> real, indeterminate: real)
      requires uniformGen.Valid()
      ensures Valid() && kind == NormalKind.NormalFromUniform12 && ug == uniformGen && Z == indeterminate
      ensures this.log == log && this.sqrt == sqrt
    {
      kind := NormalKind.NormalFromUniform12;
      ug := uniformGen;
      this.log, this.sqrt := log, sqrt;
      tpi, magicNumber := 0.0, 0.0;
      U1, U2, V1, V2, W, N1, N2, X := 0.0, 0.0, 0.0, 0.0, 0.0, 0.0, 0.0, 0.0;
      Z := indeterminate;
    }

    /** getNormal, the variant hook. */
    method GetNormal() returns (n: real)
      requires Valid() && CanDraw(Spec(), ug.Src(), ug.drawn)
      modifies this, ug
      ensures Valid() && ug.Src() == old(ug.Src())
      ensures Draw(n, ug.drawn, Z) == NextNormal(Spec(), ug.Src(), old(ug.drawn), old(Z))
    {
      match kind
      case PolarMarsaglia => n := PolarGetNormal();
      case BoxMuller => n := BoxMullerGetNormal();
      case Tocher => n := TocherGetNormal();
      case NormalFromUniform12 => n := Uniform12GetNormal();
    }

    /** One pass of the polar do-while body: two uniforms, mapped to [-1,1), and their squared
        radius. */
    method PolarAttempt() returns (u1: real, u2: real, v1: real, v2: real, w: real)
      requires ug.Valid() && ug.Ready(2)
      modifies ug
      ensures ug.Valid() && ug.Src() == old(ug.Src()) && ug.drawn == old(ug.drawn) + 2
      ensures u1 == Value(ug.Src(), old(ug.drawn)) && u2 == Value(ug.Src(), old(ug.drawn) + 1)
      ensures v1 == Polar(u1) && v2 == Polar(u2) && w == PolarW(u1, u2) && w >= 0.0
    {
      u1 := ug.GetUniform();
      u2 := ug.GetUniform();
      v1 := 2.0 * u1 - 1.0;
      v2 := 2.0 * u2 - 1.0;
      w := v1 * v1 + v2 * v2;
      PolarStep(u1, u2, v1, v2, w);
    }

    /** The polar do-while loop shared by PolarMarsaglia and BoxMuller: attempts are drawn until
        W <= 1; the result is the first accepted attempt. */
    method PolarLoop() returns (u1: real, u2: real, v1: real, v2: real, w: real)
      requires ug.Valid() && PolarCanDraw(ug.Src(), ug.drawn)
      modifies ug
      ensures ug.Valid() && ug.Src() == old(ug.Src())
      ensures var a := FirstAccept(ug.Src(), old(ug.drawn));
        ug.drawn == old(ug.drawn) + 2 * a + 2 &&
        u1 == Value(ug.Src(), old(ug.drawn) + 2 * a) && u2 == Value(ug.Src(), old(ug.drawn) + 2 * a + 1)
      ensures v1 == Polar(u1) && v2 == Polar(u2) && w == PolarW(u1, u2) && 0.0 < w <= 1.0
    {
      ghost var src, d0 := ug.Src(), ug.drawn;
      ghost var a := FirstAccept(src, d0);
      ghost var attempt: nat := 0;
      u1, u2, v1, v2, w := PolarAttempt();
      while w > 1.0
        invariant ug.Valid() && ug.Src() == src && attempt <= a && ug.drawn == d0 + 2 * attempt + 2
        invariant u1 == Value(src, d0 + 2 * attempt) && u2 == Value(src, d0 + 2 * attempt + 1)
        invariant v1 == Polar(u1) && v2 == Polar(u2) && w == PolarW(u1, u2) && w >= 0.0
        decreases a - attempt
      {
        assert !AcceptsAt(src, d0, attempt);
        attempt := attempt + 1;
        u1, u2, v1, v2, w := PolarAttempt();
      }
      assert AcceptsAt(src, d0, attempt);
      assert attempt == a;
    }

    /** PolarMarsaglia::getNormal: the loop leaves its last attempt in the members; N1 is
        returned and N2 is computed and kept. */
    method PolarGetNormal() returns (n: real)
      requires Valid() && kind.PolarMarsaglia? && PolarCanDraw(ug.Src(), ug.drawn)
      modifies this, ug
      ensures Valid() && ug.Src() == old(ug.Src())
      ensures Draw(n, ug.drawn, Z) == PolarDraw(Spec(), ug.Src(), old(ug.drawn), old(Z))
      ensures var a := FirstAccept(ug.Src(), old(ug.drawn));
        U1 == Value(ug.Src(), old(ug.drawn) + 2 * a) && U2 == Value(ug.Src(), old(ug.drawn) + 2 * a + 1)
      ensures V1 == Polar(U1) && V2 == Polar(U2) && W == PolarW(U1, U2) && 0.0 < W <= 1.0
      ensures N1 == n && N2 == PolarCompanion(Spec(), U1, U2) && X == old(X)
    {
      ghost var src, d0 := ug.Src(), ug.drawn;
      var u1, u2, v1, v2, w := PolarLoop();
      var wFunction := WFunction(Spec(), w);
      PolarAccepted(Spec(), src, d0, Z, u1, u2, v1, v2, w, wFunction);
      n := v1 * wFunction;
      U1, U2, V1, V2, W, N1, N2 := u1, u2, v1, v2, w, n, v2 * wFunction;
    }

    /** BoxMuller::getNormal: the same loop with U1, U2, V1, V2 declared locally, so only the
        members W, N1 and N2 change. */
    method BoxMullerGetNormal() returns (n: real)
      requires Valid() && kind.BoxMuller? && PolarCanDraw(ug.Src(), ug.drawn)
      modifies this, ug
      ensures Valid() && ug.Src() == old(ug.Src())
      ensures Draw(n, ug.drawn, Z) == PolarDraw(Spec(), ug.Src(), old(ug.drawn), old(Z))
      ensures U1 == old(U1) && U2 == old(U2) && V1 == old(V1) && V2 == old(V2) && X == old(X)
      ensures var a := FirstAccept(ug.Src(), old(ug.drawn));
        var u1 := Value(ug.Src(), old(ug.drawn) + 2 * a);
        var u2 := Value(ug.Src(), old(ug.drawn) + 2 * a + 1);
        W == PolarW(u1, u2) && N2 == PolarCompanion(Spec(), u1, u2)
      ensures 0.0 < W <= 1.0 && N1 == n
    {
      ghost var src, d0 := ug.Src(), ug.drawn;
      var u1, u2, v1, v2;
      var w;
      u1, u2, v1, v2, w := PolarLoop();
      var wFunction := WFunction(Spec(), w);
      PolarAccepted(Spec(), src, d0, Z, u1, u2, v1, v2, w, wFunction);
      n := v1 * wFunction;
      W, N1, N2 := w, n, v2 * wFunction;
    }

    /** Tocher::getNormal: two uniforms, X = magicNumber * log((1+U1)/(1-U2)), Z = -X or X. */
    method TocherGetNormal() returns (n: real)
      requires Valid() && kind.Tocher? && TocherCanDraw(ug.Src(), ug.drawn)
      modifies this, ug
      ensures Valid() && ug.Src() == old(ug.Src())
      ensures Draw(n, ug.drawn, Z) == TocherDraw(Spec(), ug.Src(), old(ug.drawn))
      ensures U1 == Value(ug.Src(), old(ug.drawn)) && U2 == Value(ug.Src(), old(ug.drawn) + 1)
      ensures X == TocherX(Spec(), U1, U2)
      ensures V1 == old(V1) && V2 == old(V2) && W == old(W) && N1 == old(N1) && N2 == old(N2)
    {
      ghost var src, d := ug.Src(), ug.drawn;
      var u1 := ug.GetUniform();
      var u2 := ug.GetUniform();
      var x := magicNumber * log((1.0 + u1) / (1.0 - u2));
      var z;
      if u2 <= 0.5 {
        z := -x;
      } else {
        z := x;
      }
      TocherOutput(Spec(), src, d, u1, u2, x, z);
      U1, U2, X, Z := u1, u2, x, z;
      n := z;
    }

    /** NormalFromUniform12::getNormal: a vector of twelve U(0,1), each added to Z, then Z -= 6. */
    method Uniform12GetNormal() returns (n: real)
      requires Valid() && kind.NormalFromUniform12? && ug.Ready(12)
      modifies this, ug
      ensures Valid() && ug.Src() == old(ug.Src())
      ensures Draw(n, ug.drawn, Z) == Uniform12Draw(ug.Src(), old(ug.drawn), old(Z))
      ensures U1 == old(U1) && U2 == old(U2) && V1 == old(V1) && V2 == old(V2)
      ensures W == old(W) && N1 == old(N1) && N2 == old(N2) && X == old(X)
    {
      var uArr := ug.GetUniformVector(12, 0.0, 1.0);
      for j := 0 to 12
        modifies this
        invariant Z == old(Z) + Sum(uArr[..j])
        invariant U1 == old(U1) && U2 == old(U2) && V1 == old(V1) && V2 == old(V2)
        invariant W == old(W) && N1 == old(N1) && N2 == old(N2) && X == old(X)
      {
        assert uArr[..j + 1][..j] == uArr[..j];
        Z := Z + uArr[j];
      }
      assert uArr[..12] == uArr;
      Z := Z - 6.0;
      n := Z;
    }

    /** getNormalVector(N): N calls of getNormal, element i holding the i-th result. */
    method GetNormalVector(N: nat) returns (vec: seq<real>)
      requires Valid() && Normals(GetNormalStep(Spec(), ug.Src()), ug.drawn, Z, N).Some?
      modifies this, ug
      ensures Valid() && ug.Src() == old(ug.Src())
      ensures var r := Normals(GetNormalStep(Spec(), ug.Src()), old(ug.drawn), old(Z), N).value;
        vec == r.values && ug.drawn == r.next && Z == r.z
    {
      ghost var src, d0, z0 := ug.Src(), ug.drawn, Z;
      ghost var step := GetNormalStep(Spec(), src);
      var arr := new real[N];
      for i := 0 to N
        invariant Valid() && ug.Src() == src
        invariant Normals(step, d0, z0, i).Some?
        invariant var r := Normals(step, d0, z0, i).value;
          ug.drawn == r.next && Z == r.z && arr[..i] == r.values
      {
        NormalsPrefix(step, d0, z0, i + 1, N);
        ghost var p := Normals(step, d0, z0, i).value;
        assert step(p.next, p.z).Some?;
        var n := GetNormal();
        arr[i] := n;
        assert arr[..i + 1] == p.values + [n];
      }
      vec := arr[..];
    }

    /** The inner loop of getNormalMatrix: row i, column by column, one getNormal call each. */
    method FillRow(result: array2<real>, i: nat)
      requires Valid() && i < result.Length0
      requires Normals(GetNormalStep(Spec(), ug.Src()), ug.drawn, Z, result.Length1).Some?
      modifies this, ug, result
      ensures Valid() && ug.Src() == old(ug.Src())
      ensures var r := Normals(GetNormalStep(Spec(), ug.Src()), old(ug.drawn), old(Z), result.Length1).value;
        ug.drawn == r.next && Z == r.z &&
        forall c :: 0 <= c < result.Length1 ==> result[i, c] == r.values[c]
      ensures forall p, c :: 0 <= p < result.Length0 && p != i && 0 <= c < result.Length1 ==>
        result[p, c] == old(result[p, c])
    {
      ghost var src, d0, z0 := ug.Src(), ug.drawn, Z;
      ghost var step := GetNormalStep(Spec(), src);
      for j := 0 to result.Length1
        invariant Valid() && ug.Src() == src
        invariant Normals(step, d0, z0, j).Some?
        invariant var r := Normals(step, d0, z0, j).value;
          ug.drawn == r.next && Z == r.z &&
          forall c :: 0 <= c < j ==> result[i, c] == r.values[c]
        invariant forall p, c :: 0 <= p < result.Length0 && p != i && 0 <= c < result.Length1 ==>
          result[p, c] == old(result[p, c])
      {
        NormalsPrefix(step, d0, z0, j + 1, result.Length1);
        ghost var q := Normals(step, d0, z0, j).value;
        assert step(q.next, q.z).Some?;
        var n := GetNormal();
        result[i, j] := n;
      }
    }

    /** getNormalMatrix(N, M): an N-by-M matrix filled by N*M calls of getNormal, all columns of a
        row before the next row. */
    method GetNormalMatrix(N: nat, M: nat) returns (result: array2<real>)
      requires Valid() && NormalRows(GetNormalStep(Spec(), ug.Src()), ug.drawn, Z, N, M).Some?
      modifies this, ug
      ensures fresh(result) && result.Length0 == N && result.Length1 == M
      ensures Valid() && ug.Src() == old(ug.Src())
      ensures var r := NormalRows(GetNormalStep(Spec(), ug.Src()), old(ug.drawn), old(Z), N, M).value;
        ug.drawn == r.next && Z == r.z &&
        forall p, c :: 0 <= p < N && 0 <= c < M ==> result[p, c] == r.rows[p][c]
    {
      ghost var src, d0, z0 := ug.Src(), ug.drawn, Z;
      ghost var step := GetNormalStep(Spec(), src);
      ghost var full := NormalRows(step, d0, z0, N, M).value;
      result := new real[N, M];
      for i := 0 to N
        invariant Valid() && ug.Src() == src
        invariant NormalRows(step, d0, z0, i, M).Some?
        invariant var r := NormalRows(step, d0, z0, i, M).value; ug.drawn == r.next && Z == r.z
        invariant forall p, c :: 0 <= p < i && 0 <= c < M ==> result[p, c] == full.rows[p][c]
      {
        RowsPrefix(step, d0, z0, i + 1, N, M);
        ghost var before := NormalRows(step, d0, z0, i, M).value;
        assert full.rows[i] == NormalRows(step, d0, z0, i + 1, M).value.rows[i]
          == Normals(step, before.next, before.z, M).value.values;
        FillRow(result, i);
      }
    }
  }
}
