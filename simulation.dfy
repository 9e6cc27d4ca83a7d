/** Simulation in Main.cpp: one path of a one-factor short-rate SDE
      dr = drift(t, r) dt + diffusion(t, r) dW
    by the explicit Euler-Maruyama scheme on a given mesh, with the normals drawn up front from a
    BoxMuller generator over a TerribleRandGenerator. */
module ShortRateSimulation {
  import opened UniformGenerators
  import opened NormalRuns
  import opened NormalGenerators

  /** A Vector<double, long>: values[i] sits at index minIndex + i. */
  datatype Vector = Vector(minIndex: int, values: seq<real>) {
    function Size(): nat {
      |values|
    }

    function MaxIndex(): int {
      minIndex + |values| - 1
    }

    predicate Has(n: int) {
      minIndex <= n <= MaxIndex()
    }

    function At(n: int): real
      requires Has(n)
    {
      values[n - minIndex]
    }
  }

  /** What Simulation reads of an IrSde: the coefficients, r0, and the end points of Interval(). */
  datatype IrSde = IrSde(
    drift: (real, real) -> real,
    diffusion: (real, real) -> real,
    initialCondition: real,
    low: real,
    high: real)
  {
    /** Interval().spread(). */
    function Spread(): real {
      high - low
    }
  }

  /** The step k = spread/(N-1). For N = 1 the C++ quotient divides by zero, but no step reads
      it; the model then uses 0. */
  function StepSize(sde: IrSde, N: nat): (k: real)
    ensures N >= 2 ==> k * (N - 1) as real == sde.Spread()
  {
    if N >= 2 then sde.Spread() / (N - 1) as real else 0.0
  }

  /** One explicit Euler step to time t from the state rOld, with step k, sk = sqrt(k) and the
      normal z. */
  function EulerStep(sde: IrSde, t: real, rOld: real, k: real, sk: real, z: real): real {
    rOld + sde.drift(t, rOld) * k + sde.diffusion(t, rOld) * sk * z
  }

  /** Every mesh index past the first is an index of normals. */
  predicate Covers(normals: Vector, mesh: Vector) {
    mesh.Size() >= 2 ==> normals.minIndex <= mesh.minIndex + 1 && mesh.MaxIndex() <= normals.MaxIndex()
  }

  /** The step Simulation computes from the two coefficient values is EulerStep. */
  lemma EulerStepFrom(sde: IrSde, t: real, rOld: real, k: real, sk: real, z: real, drift: real, diffusion: real, r: real)
    requires drift == sde.drift(t, rOld) && diffusion == sde.diffusion(t, rOld)
    requires r == rOld + (drift * k) + (diffusion * sk * z)
    ensures r == EulerStep(sde, t, rOld, k, sk, z)
  {
  }

  /** path is an explicit Euler path on mesh: it has one entry per mesh point, starts at the
      initial condition, and the entry at index n is one step from the entry at n - 1, with the
      coefficients taken at the new time mesh[n] and the normal at index n. */
  predicate IsEulerPath(sde: IrSde, mesh: Vector, normals: Vector, k: real, sk: real, path: seq<real>) {
    |path| == mesh.Size() && |path| >= 1 && Covers(normals, mesh) && path[0] == sde.initialCondition &&
    forall i :: 1 <= i < |path| ==>
      path[i] == EulerStep(sde, mesh.values[i], path[i - 1], k, sk, normals.At(mesh.minIndex + i))
  }

  /** The N normals Simulation draws: getNormalVector(N) of a fresh BoxMuller over a fresh
      TerribleRandGenerator whose rand() calls return rands. */
  ghost function BoxMullerNormals(rands: seq<int>, log: real -> real, sqrt: real -> real, N: nat): Option<Run>
    requires forall i :: 0 <= i < |rands| ==> 0 <= rands[i] <= RAND_MAX
  {
    var src := Source(UniformKind.TerribleRand, rands, 1.0 + RAND_MAX as real, 0, 0.0);
    Normals(GetNormalStep(Transform(NormalKind.BoxMuller, log, sqrt, 0.0), src), 0, 0.0, N)
  }

  /** The generators Simulation builds and the N normals it draws from them, before any step. */
  method DrawNormals(rands: seq<int>, log: real -> real, sqrt: real -> real, N: nat) returns (normals: seq<real>)
    requires forall i :: 0 <= i < |rands| ==> 0 <= rands[i] <= RAND_MAX
    requires BoxMullerNormals(rands, log, sqrt, N).Some?
    ensures normals == BoxMullerNormals(rands, log, sqrt, N).value.values
  {
    var myTerrible := new UniformGenerator.TerribleRand(rands);
    var myNormal := new NormalGenerator.BoxMuller(myTerrible, log, sqrt);
    normals := myNormal.GetNormalVector(N);
  }

  /** Simulation(irsde, mesh). `rands` is what rand() returns, `log` and `sqrt` the C library's
      functions, and `vectorStart` the first index of a Vector(N), fixed in Vector.cpp. Index n of
      the path reads arr2[n], so the mesh indices past the first must be indices of arr2. */
  method Simulation(irsde: IrSde, mesh: Vector, rands: seq<int>, log: real -> real, sqrt: real -> real,
                    vectorStart: int)
    returns (result: Vector)
    requires mesh.Size() >= 1
    requires forall i :: 0 <= i < |rands| ==> 0 <= rands[i] <= RAND_MAX
    requires BoxMullerNormals(rands, log, sqrt, mesh.Size()).Some?
    requires mesh.Size() >= 2 ==> vectorStart - 1 <= mesh.minIndex <= vectorStart
    ensures result.minIndex == mesh.minIndex && result.Size() == mesh.Size()
    ensures var k := StepSize(irsde, mesh.Size());
      var normals := Vector(vectorStart, BoxMullerNormals(rands, log, sqrt, mesh.Size()).value.values);
      IsEulerPath(irsde, mesh, normals, k, sqrt(k), result.values)
  {
    var N := mesh.Size();
    var k := if N >= 2 then irsde.Spread() / (N - 1) as real else 0.0;
    var sk := sqrt(k);

    var normals := DrawNormals(rands, log, sqrt, N);
    var arr2 := Vector(vectorStart, normals);

    var path := new real[N];
    path[0] := irsde.initialCondition;
    ghost var trace := [irsde.initialCondition];
    for i := 1 to N
      invariant |trace| == i && path[..i] == trace
      invariant IsEulerPath(irsde, Vector(mesh.minIndex, mesh.values[..i]), arr2, k, sk, trace)
    {
      var n := mesh.minIndex + i;
      var rOld := path[i - 1];
      var t, z := mesh.At(n), arr2.At(n);
      var drift, diffusion := irsde.drift(t, rOld), irsde.diffusion(t, rOld);
      var rNew := rOld + (drift * k) + (diffusion * sk * z);
      EulerStepFrom(irsde, t, rOld, k, sk, z, drift, diffusion, rNew);
      path[i] := rNew;
      EulerPathExtends(irsde, mesh, arr2, k, sk, trace, rNew);
      trace := trace + [rNew];
      assert path[..i + 1] == path[..i] + [rNew];
    }
    assert mesh.values[..N] == mesh.values;
    assert path[..] == path[..N];
    result := Vector(mesh.minIndex, path[..]);
  }

  /** An Euler path on the first points of the mesh, extended by one step to the next point, is an
      Euler path on one more point. */
  lemma EulerPathExtends(sde: IrSde, mesh: Vector, normals: Vector, k: real, sk: real, path: seq<real>, r: real)
    requires 1 <= |path| < mesh.Size() && Covers(normals, mesh)
    requires IsEulerPath(sde, Vector(mesh.minIndex, mesh.values[..|path|]), normals, k, sk, path)
    requires r == EulerStep(sde, mesh.values[|path|], path[|path| - 1], k, sk, normals.At(mesh.minIndex + |path|))
    ensures IsEulerPath(sde, Vector(mesh.minIndex, mesh.values[..|path| + 1]), normals, k, sk, path + [r])
  {
    var i := |path|;
    var longer := path + [r];
    forall j | 1 <= j <= i
      ensures longer[j] == EulerStep(sde, mesh.values[..i + 1][j], longer[j - 1], k, sk, normals.At(mesh.minIndex + j))
    {
      if j < i {
        assert mesh.values[..i][j] == mesh.values[j];
        assert longer[j] == path[j];
      }
    }
  }

  /** The recurrence fixes the path: given the mesh, the normals and the step, there is one
      Euler path. */
  lemma EulerPathUnique(sde: IrSde, mesh: Vector, normals: Vector, k: real, sk: real, p: seq<real>, q: seq<real>)
    requires IsEulerPath(sde, mesh, normals, k, sk, p) && IsEulerPath(sde, mesh, normals, k, sk, q)
    ensures p == q
  {
    var i := 1;
    while i < |p|
      invariant 1 <= i <= |p|
      invariant forall j :: 0 <= j < i ==> p[j] == q[j]
    {
      assert p[i - 1] == q[i - 1];
      i := i + 1;
    }
  }

  /** With drift and diffusion identically zero every entry is the initial condition. */
  lemma {:induction false} ZeroCoefficientsKeepInitialCondition(sde: IrSde, mesh: Vector, normals: Vector, k: real, sk: real, path: seq<real>)
    requires forall t, r :: sde.drift(t, r) == 0.0 && sde.diffusion(t, r) == 0.0
    requires IsEulerPath(sde, mesh, normals, k, sk, path)
    ensures forall i :: 0 <= i < |path| ==> path[i] == sde.initialCondition
  {
    var i := 1;
    while i < |path|
      invariant 1 <= i <= |path|
      invariant forall j :: 0 <= j < i ==> path[j] == sde.initialCondition
    {
      assert path[i] == EulerStep(sde, mesh.values[i], path[i - 1], k, sk, normals.At(mesh.minIndex + i));
      i := i + 1;
    }
  }

  /** The normal at the mesh's first index is drawn but never read: normals that differ only there
      give the same Euler paths. */
  lemma FirstNormalIsUnused(sde: IrSde, mesh: Vector, normals: Vector, others: Vector, k: real, sk: real, path: seq<real>)
    requires others.minIndex == normals.minIndex && others.Size() == normals.Size()
    requires forall n :: normals.Has(n) && n != mesh.minIndex ==> others.At(n) == normals.At(n)
    ensures IsEulerPath(sde, mesh, normals, k, sk, path) <==> IsEulerPath(sde, mesh, others, k, sk, path)
  {

  }

  /** For coefficients that do not depend on time, taking them at mesh[n] as Simulation does
      gives the textbook scheme, which takes them at the left end mesh[n-1]. */
  lemma TimeHomogeneousMatchesTextbook(sde: IrSde, mesh: Vector, normals: Vector, k: real, sk: real, path: seq<real>)
    requires forall t, u, r :: sde.drift(t, r) == sde.drift(u, r) && sde.diffusion(t, r) == sde.diffusion(u, r)
    requires IsEulerPath(sde, mesh, normals, k, sk, path)
    ensures forall i :: 1 <= i < |path| ==>
      path[i] == EulerStep(sde, mesh.values[i - 1], path[i - 1], k, sk, normals.At(mesh.minIndex + i))
  {
    forall i | 1 <= i < |path|
      ensures path[i] == EulerStep(sde, mesh.values[i - 1], path[i - 1], k, sk, normals.At(mesh.minIndex + i))
    {
      var t, u, r := mesh.values[i], mesh.values[i - 1], path[i - 1];
      assert sde.drift(t, r) == sde.drift(u, r) && sde.diffusion(t, r) == sde.diffusion(u, r);
    }
  }

  /** With coefficients that do depend on time the two evaluation points differ: drift(t, r) = t,
      no diffusion, mesh [0, 1], r0 = 0.05 and k = 1 give 1.05 at the second point, where the
      left-end scheme gives 0.05. */
  lemma NewTimePointExample(normals: Vector)
    requires normals.Has(2)
    ensures var sde := IrSde((t, r) => t, (t, r) => 0.0, 0.05, 0.0, 1.0);
      var mesh := Vector(1, [0.0, 1.0]);
      IsEulerPath(sde, mesh, normals, 1.0, 1.0, [0.05, 1.05]) &&
      EulerStep(sde, mesh.values[0], 0.05, 1.0, 1.0, normals.At(2)) == 0.05
  {
  }

  /** Two mesh points on [0, 1], r0 = 0.05, no drift and no diffusion: the path is [0.05, 0.05]. */
  lemma NoNoisePath(normals: Vector, sqrt: real -> real, path: seq<real>)
    requires normals.Has(2)
    ensures var sde := IrSde((t, r) => 0.0, (t, r) => 0.0, 0.05, 0.0, 1.0);
      var mesh := Vector(1, [0.0, 1.0]);
      var k := StepSize(sde, 2);
      IsEulerPath(sde, mesh, normals, k, sqrt(k), path) <==> path == [0.05, 0.05]
  {
    var sde := IrSde((t, r) => 0.0, (t, r) => 0.0, 0.05, 0.0, 1.0);
    var mesh := Vector(1, [0.0, 1.0]);
    var k := StepSize(sde, 2);
    if IsEulerPath(sde, mesh, normals, k, sqrt(k), path) {
      ZeroCoefficientsKeepInitialCondition(sde, mesh, normals, k, sqrt(k), path);
    }
  }
}
