/** Uniform random variates.
    The C++ hierarchy has an abstract UniformGenerator whose one variant hook, getUniform, is
    implemented by TerribleRandGenerator, CRandGenerator and MSSecureRandGenerator, and whose
    invariant routines getUniformVector and getUniformVectorPairs are built on that hook alone.
    Here the hierarchy is one class whose `kind` selects the hook's body. Each draw is identified
    by its position in the sequence of draws since the generator was seeded. */
module UniformGenerators {

  /** RAND_MAX of the C library the rand()-based generators use. */
  const RAND_MAX: int := 32767

  /** UINT_MAX of a 32-bit unsigned int. */
  const UINT_MAX: int := 0xFFFF_FFFF

  /** The concrete generator classes. */
  datatype UniformKind = TerribleRand | CRand | MSSecureRand

  /** Everything that decides the value of each draw: the generator's class, the values rand()
      returns after seeding (the libc state), and the fields the hook divides and scales by. */
  datatype Source = Source(kind: UniformKind, rands: seq<int>, factor: real, number: int, max: real)

  predicate SourceValid(src: Source) {
    if src.kind.MSSecureRand? then
      0 <= src.number <= UINT_MAX && 0.0 <= src.max
    else
      src.factor == 1.0 + RAND_MAX as real &&
      forall i :: 0 <= i < |src.rands| ==> 0 <= src.rands[i] <= RAND_MAX
  }

  /** Whether the first n draws since seeding exist. rand() is modelled by a finite sequence;
      the secure generator reads no stream at all, so it never runs out. */
  predicate Available(src: Source, n: nat) {
    src.kind.MSSecureRand? || n <= |src.rands|
  }

  /** The value of draw number j: rand()/factor, or number/UINT_MAX*max for the secure generator,
      whose `number` is never assigned. */
  function Value(src: Source, j: nat): real
    requires SourceValid(src) && Available(src, j + 1)
  {
    if src.kind.MSSecureRand? then src.number as real / UINT_MAX as real * src.max
    else src.rands[j] as real / src.factor
  }

  /** The rand()-based draws lie in [0,1). */
  lemma RandDrawInUnitInterval(src: Source, j: nat)
    requires SourceValid(src) && !src.kind.MSSecureRand? && Available(src, j + 1)
    ensures 0.0 <= Value(src, j) < 1.0
  {
  }

  /** TerribleRandGenerator and CRandGenerator have the same body: on the same rand() stream they
      return the same draws. */
  lemma TerribleRandIsCRand(rands: seq<int>, j: nat)
    requires forall i :: 0 <= i < |rands| ==> 0 <= rands[i] <= RAND_MAX
    requires j < |rands|
    ensures Value(Source(TerribleRand, rands, 1.0 + RAND_MAX as real, 0, 0.0), j)
         == Value(Source(CRand, rands, 1.0 + RAND_MAX as real, 0, 0.0), j)
    ensures 0.0 <= Value(Source(CRand, rands, 1.0 + RAND_MAX as real, 0, 0.0), j) < 1.0
  {
  }

  /** The secure generator's draw lies in [0, max], is the same on every call, and equals max
      exactly when number == UINT_MAX. */
  lemma SecureDrawInClosedRange(src: Source, i: nat, j: nat)
    requires SourceValid(src) && src.kind.MSSecureRand?
    ensures 0.0 <= Value(src, i) <= src.max
    ensures Value(src, i) == Value(src, j)
    ensures Value(src, i) == src.max <==> (src.number == UINT_MAX || src.max == 0.0)
  {
    var q := src.number as real / UINT_MAX as real;
    assert Value(src, i) == q * src.max == Value(src, j);
    assert 0.0 <= q <= 1.0;
    assert (1.0 - q) * src.max >= 0.0;
    if q * src.max == src.max && src.max != 0.0 {
      assert (1.0 - q) * src.max == 0.0;
      assert q == 1.0;
      assert src.number as real == UINT_MAX as real;
    }
  }

  /** getUniformVector's result as a function of the draws: element i is A + (B-A)*u_i, where
      u_i is the i-th draw after position d. */
  function UniformVector(src: Source, d: nat, n: nat, A: real, B: real): (v: seq<real>)
    requires SourceValid(src) && Available(src, d + n)
    ensures |v| == n
  {
    seq(n, i requires 0 <= i < n => Affine(A, B, Value(src, d + i)))
  }

  lemma ScaleBelow(x: real, u: real)
    requires x > 0.0 && 0.0 <= u < 1.0
    ensures 0.0 <= x * u < x
  {
    var e := 1.0 - u;
    assert x * e > 0.0;
    assert x * e == x * 1.0 - x * u;
  }

  /** The map getUniformVector applies to every draw: [0,1) stretched onto [A,B). */
  function Affine(A: real, B: real, u: real): real {
    A + (B - A) * u
  }

  /** The affine map of getUniformVector sends [0,1) into [A,B). */
  lemma AffineInRange(A: real, B: real, u: real)
    requires A < B && 0.0 <= u < 1.0
    ensures A <= Affine(A, B, u) < B
  {
    var c := B - A;
    ScaleBelow(c, u);
    calc { (B - A) * u; == c * u; < c; }
    calc { 0.0; <= c * u; == (B - A) * u; }
  }

  /** With a rand()-based generator and A < B every element of getUniformVector lies in [A,B). */
  lemma UniformVectorInRange(src: Source, d: nat, n: nat, A: real, B: real)
    requires SourceValid(src) && !src.kind.MSSecureRand? && Available(src, d + n) && A < B
    ensures forall i :: 0 <= i < n ==> A <= UniformVector(src, d, n, A, B)[i] < B
  {
    forall i | 0 <= i < n
      ensures A <= UniformVector(src, d, n, A, B)[i] < B
    {
      var u := Value(src, d + i);
      RandDrawInUnitInterval(src, d + i);
      AffineInRange(A, B, u);
    }
  }

  /** The pairs getUniformVectorPairs returns, as written: the loop bound `j < MaxIndex()` stops one
      pair short, so the last pair keeps the default value of pair<double,double>, (0.0, 0.0). */
  function PairsAsWritten(basis: seq<real>, n: nat): (ps: seq<(real, real)>)
    requires |basis| == 2 * n
    ensures |ps| == n
  {
    seq(n, j requires 0 <= j < n => if j < n - 1 then (basis[2 * j], basis[2 * j + 1]) else (0.0, 0.0))
  }

  /** The pairs the routine's comment promises: pair j is (basis[2j], basis[2j+1]) for every j. */
  function Pairs(basis: seq<real>): (ps: seq<(real, real)>)
    requires |basis| % 2 == 0
    ensures |ps| == |basis| / 2
  {
    seq(|basis| / 2, j requires 0 <= j < |basis| / 2 => (basis[2 * j], basis[2 * j + 1]))
  }

  /** The draws a sequence of pairs was made from, in order. */
  function Flatten(ps: seq<(real, real)>): (s: seq<real>)
    ensures |s| == 2 * |ps|
  {
    if ps == [] then [] else Flatten(ps[..|ps| - 1]) + [ps[|ps| - 1].0, ps[|ps| - 1].1]
  }

  /** The intended pairing loses no draw: flattening the pairs gives back the basis vector. */
  lemma {:induction false} PairsRoundTrip(basis: seq<real>)
    requires |basis| % 2 == 0
    ensures Flatten(Pairs(basis)) == basis
  {
    if basis != [] {
      var m := |basis| - 2;
      var front := basis[..m];
      PairsRoundTrip(front);
      assert Pairs(basis)[..|Pairs(basis)| - 1] == Pairs(front);
      assert basis == front + [basis[m], basis[m + 1]];
    }
  }

  /** As written, every pair but the last agrees with the intended pairing, and the last is
      (0.0, 0.0) whatever was drawn, so the round trip fails as soon as the last two draws are not
      both zero. */
  lemma PairsAsWrittenDropsLastPair(basis: seq<real>, n: nat)
    requires |basis| == 2 * n && n >= 1
    ensures PairsAsWritten(basis, n)[..n - 1] == Pairs(basis)[..n - 1]
    ensures PairsAsWritten(basis, n)[n - 1] == (0.0, 0.0)
    ensures (basis[2 * n - 2], basis[2 * n - 1]) != (0.0, 0.0) ==> Flatten(PairsAsWritten(basis, n)) != basis
  {
    var ps := PairsAsWritten(basis, n);
    if (basis[2 * n - 2], basis[2 * n - 1]) != (0.0, 0.0) {
      var f := Flatten(ps);
      assert f[2 * n - 2..] == [ps[n - 1].0, ps[n - 1].1];
      assert f[2 * n - 2] == 0.0 && f[2 * n - 1] == 0.0;
    }
  }

  /** One pair from rand() returning 16384 twice: both draws are 0.5, yet the pair is (0.0, 0.0). */
  lemma OnePairFromTerribleRand()
    ensures var src := Source(TerribleRand, [16384, 16384], 1.0 + RAND_MAX as real, 0, 0.0);
            UniformVector(src, 0, 2, 0.0, 1.0) == [0.5, 0.5] &&
            PairsAsWritten(UniformVector(src, 0, 2, 0.0, 1.0), 1) == [(0.0, 0.0)] &&
            Pairs(UniformVector(src, 0, 2, 0.0, 1.0)) == [(0.5, 0.5)]
  {
    var src := Source(TerribleRand, [16384, 16384], 1.0 + RAND_MAX as real, 0, 0.0);
    assert Value(src, 0) == 0.5 && Value(src, 1) == 0.5;
    assert UniformVector(src, 0, 2, 0.0, 1.0) == [0.5, 0.5];
  }

  /** A uniform generator object. Fields a subclass does not declare are zero and never touched:
      `factor` belongs to TerribleRand and CRand, `number`, `max` and `U1` to MSSecureRand.
      `rands` and `drawn` stand for the C library's rand() state: the values rand() returns after
      seeding, and how many draws have been made since. */
  class UniformGenerator {
    const kind: UniformKind
    var factor: real
    var number: int
    var max: real
    var U1: real
    var rands: seq<int>
    var drawn: nat

    ghost function Src(): Source
      reads this
    {
      Source(kind, rands, factor, number, max)
    }

    ghost predicate Valid()
      reads this
    {
      SourceValid(Src()) && Available(Src(), drawn)
    }

    /** The next n draws exist. */
    ghost predicate Ready(n: nat)
      reads this
    {
      Available(Src(), drawn + n)
    }

    /** TerribleRandGenerator(): factor = 1 + RAND_MAX; `rands` is what rand() returns from here on. */
    constructor TerribleRand(rands: seq<int>)
      requires forall i :: 0 <= i < |rands| ==> 0 <= rands[i] <= RAND_MAX
      ensures Valid() && kind == UniformKind.TerribleRand
      ensures factor == 1.0 + RAND_MAX as real && this.rands == rands && drawn == 0
      ensures number == 0 && max == 0.0 && U1 == 0.0
    {
      kind := UniformKind.TerribleRand;
      factor := 1.0 + RAND_MAX as real;
      number, max, U1 := 0, 0.0, 0.0;
      this.rands := rands;
      drawn := 0;
    }

    /** CRandGenerator(): the same state as TerribleRandGenerator. */
    constructor CRand(rands: seq<int>)
      requires forall i :: 0 <= i < |rands| ==> 0 <= rands[i] <= RAND_MAX
      ensures Valid() && kind == UniformKind.CRand
      ensures factor == 1.0 + RAND_MAX as real && this.rands == rands && drawn == 0
    {
      kind := UniformKind.CRand;
      factor := 1.0 + RAND_MAX as real;
      number, max, U1 := 0, 0.0, 0.0;
      this.rands := rands;
      drawn := 0;
    }

    /** MSSecureRandGenerator(): max = 1.0. The constructor leaves `number` unassigned and no
        call ever assigns it; the parameter is that indeterminate value. */
    constructor MSSecureRand(indeterminate: int)
      requires 0 <= indeterminate <= UINT_MAX
      ensures Valid() && kind == UniformKind.MSSecureRand
      ensures max == 1.0 && number == indeterminate && drawn == 0
    {
      kind := UniformKind.MSSecureRand;
      factor := 0.0;
      number, max, U1 := indeterminate, 1.0, 0.0;
      rands := [];
      drawn := 0;
    }

    /** init: the rand()-based generators call srand(time(0)) and ignore the seed, so the clock
        picks the values rand() returns next (`clockStream`); the secure generator does nothing. */
    method Init(seed: int, clockStream: seq<int>)
      requires Valid()
      requires forall i :: 0 <= i < |clockStream| ==> 0 <= clockStream[i] <= RAND_MAX
      modifies this
      ensures Valid()
      ensures kind.MSSecureRand? ==> unchanged(this)
      ensures !kind.MSSecureRand? ==> rands == clockStream && drawn == 0
      ensures factor == old(factor) && number == old(number) && max == old(max) && U1 == old(U1)
    {
      if !kind.MSSecureRand? {
        rands := clockStream;
        drawn := 0;
      }
    }

    /** getUniform, the variant hook: returns the next draw and advances. The secure generator
        also stores the draw in U1; its rand_s call is commented out, so no failure is reported. */
    method GetUniform() returns (u: real)
      requires Valid() && Ready(1)
      modifies this
      ensures Valid() && Src() == old(Src()) && drawn == old(drawn) + 1
      ensures u == Value(Src(), old(drawn))
      ensures U1 == if kind.MSSecureRand? then u else old(U1)
      ensures !kind.MSSecureRand? ==> 0.0 <= u < 1.0
      ensures kind.MSSecureRand? ==> 0.0 <= u <= max
    {
      if kind.MSSecureRand? {
        U1 := number as real / UINT_MAX as real * max;
        u := U1;
        SecureDrawInClosedRange(Src(), drawn, drawn);
      } else {
        u := rands[drawn] as real / factor;
        RandDrawInUnitInterval(Src(), drawn);
      }
      drawn := drawn + 1;
    }

    /** getUniformVector(N, A = 0.0, B = 1.0): N draws, in order, mapped by A + (B-A)*u. */
    method GetUniformVector(N: nat, A: real := 0.0, B: real := 1.0) returns (vec: seq<real>)
      requires Valid() && Ready(N)
      modifies this
      ensures Valid() && Src() == old(Src()) && drawn == old(drawn) + N
      ensures vec == UniformVector(Src(), old(drawn), N, A, B)
      ensures !kind.MSSecureRand? ==> U1 == old(U1)
      ensures kind.MSSecureRand? && N > 0 ==> U1 == Value(Src(), old(drawn))
    {
      var arr := new real[N];
      for i := 0 to N
        invariant Valid() && Src() == old(Src()) && drawn == old(drawn) + i
        invariant forall p :: 0 <= p < i ==> arr[p] == Affine(A, B, Value(Src(), old(drawn) + p))
        invariant !kind.MSSecureRand? ==> U1 == old(U1)
        invariant kind.MSSecureRand? && i > 0 ==> U1 == Value(Src(), old(drawn))
      {
        var u := GetUniform();
        arr[i] := Affine(A, B, u);
      }
      vec := arr[..];
      assert forall p :: 0 <= p < N ==> vec[p] == UniformVector(Src(), old(drawn), N, A, B)[p];
    }

    /** getUniformVectorPairs(N, A, B): draws a 2N-element vector first, then copies consecutive
        elements into the pairs; the loop fills only the first N-1 pairs. */
    method GetUniformVectorPairs(N: nat, A: real, B: real) returns (result: seq<(real, real)>)
      requires Valid() && Ready(2 * N)
      modifies this
      ensures Valid() && Src() == old(Src()) && drawn == old(drawn) + 2 * N
      ensures result == PairsAsWritten(UniformVector(Src(), old(drawn), 2 * N, A, B), N)
      ensures !kind.MSSecureRand? ==> U1 == old(U1)
      ensures kind.MSSecureRand? && N > 0 ==> U1 == Value(Src(), old(drawn))
    {
      var basisArray := GetUniformVector(2 * N, A, B);
      var res := new (real, real)[N](_ => (0.0, 0.0));
      var i := 0;
      var j := 0;
      while j < N - 1
        modifies res
        invariant 0 <= j <= N && (N >= 1 ==> j <= N - 1) && i == 2 * j
        invariant forall p :: 0 <= p < j ==> res[p] == (basisArray[2 * p], basisArray[2 * p + 1])
        invariant forall p :: j <= p < N ==> res[p] == (0.0, 0.0)
      {
        res[j] := (basisArray[i], basisArray[i + 1]);
        i := i + 2;
        j := j + 1;
      }
      result := res[..];
    }
  }
}
