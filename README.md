# Random variates and an Euler short-rate path, in Dafny

This project models the numerical core of a C++ Monte-Carlo exercise from the Datasim library:

- **Uniform generators.** The abstract `UniformGenerator` has one variant hook, `getUniform`. It is implemented by `TerribleRandGenerator` and `CRandGenerator`, both `rand()/(RAND_MAX+1)`, and by `MSSecureRandGenerator`, `number/UINT_MAX*max`. The base class also has two invariant routines built on the hook: `getUniformVector`, which applies the affine map `A + (B-A)*u`, and `getUniformVectorPairs`.
- **Normal generators.** The abstract `NormalGenerator` refers to a uniform generator it does not own. Its hook `getNormal` is implemented by `PolarMarsaglia`, `BoxMuller`, `Tocher` and `NormalFromUniform12`:
  - `PolarMarsaglia` and `BoxMuller` both run the polar rejection loop.
  - `Tocher` is a log-ratio method.
  - `NormalFromUniform12` adds twelve uniforms and subtracts 6.

  On that hook alone the base class builds `getNormalVector` and `getNormalMatrix`.
- **`Simulation`.** The explicit Euler–Maruyama path of a one-factor short-rate SDE `dr = drift(t, r) dt + diffusion(t, r) dW`. It runs on a mesh, with normals drawn up front from a `BoxMuller` over a `TerribleRandGenerator`.

Each C++ hierarchy is one Dafny class whose `kind` field selects the body of the hook. Its fields are the union of the subclasses' fields. The methods update those fields and the uniform cursor in place.

Every draw is identified by its position since seeding. `Value(src, j)` is draw number j of a `Source`. A source describes the generator class, the values `rand()` returns, and the divisor and scale fields. That is what lets the contracts say which draws each call consumes and where each one lands.

Each routine that loops has a specification function on these positions:
- `Normals` covers k consecutive `getNormal` calls.
- `NormalRows` covers a matrix fill.
- `UniformVector` and `PairsAsWritten` cover the uniform routines.
- `IsEulerPath` covers the Euler recurrence.

The methods are proved against these functions, and the source's promises are proved as lemmas about the functions.

`double` is modelled as `real`. The C library's `log` and `sqrt` are function-valued parameters. A lemma that needs a fact about them states it as a precondition: `log` non-negative from 1, non-positive on (0, 1], or `sqrt` non-negative.

Files:
- `uniform_generator.dfy`: module `UniformGenerators`.
- `normal_runs.dfy`: module `NormalRuns`. It holds the base-class routines over an abstract `getNormal` step.
- `normal_generator.dfy`: module `NormalGenerators`.
- `simulation.dfy`: module `ShortRateSimulation`.

Two behaviours of the code that the model keeps as they are:
- **`Simulation` with one mesh point.** The step size divides by zero, but no step reads k, so the code returns the one-entry path `[r0]`. The model takes k = 0 and returns that path.
- **`MSSecureRandGenerator`.** The `rand_s` call is commented out, so no failure is reported, and every call returns `number/UINT_MAX*max` of the never-assigned `number`. The model does the same.

`RAND_MAX` is fixed at 32767, the value the comment at UniformGenerator.cpp:70 gives. It is the Microsoft C library's value; glibc's is 2147483647. The draws in the findings below depend on it: `rand()` returning 16384 gives 0.5, and 24576 gives 0.75.

## Model

| member | source | states |
|---|---|---|
| UniformGenerators.Value | UniformGenerator.cpp:85-141 | defines draw number j since seeding: the j-th rand() value divided by factor for TerribleRandGenerator and CRandGenerator (lines 88, 111), and number/UINT_MAX*max for the secure generator (line 138), whatever j is; defined only when the stream holds that draw |
| UniformGenerators.Affine | UniformGenerator.cpp:41 | defines A + (B-A)*u, the value getUniformVector stores for the draw u |
| UniformGenerators.RandDrawInUnitInterval | UniformGenerator.cpp:85-89 | a `rand()` value in [0, RAND_MAX] divided by RAND_MAX+1 lies in [0,1) |
| UniformGenerators.TerribleRandIsCRand | UniformGenerator.cpp:68-112 | on the same `rand()` stream TerribleRandGenerator and CRandGenerator return the same draw, which lies in [0,1) |
| UniformGenerators.SecureDrawInClosedRange | UniformGenerator.cpp:128-141 | the secure draw number/UINT_MAX*max lies in the closed range [0, max], so max itself is possible |
| UniformGenerators.UniformVector | UniformGenerator.cpp:33-45 | getUniformVector(N, A, B) has exactly N elements, element i being A + (B-A) times draw i |
| UniformGenerators.AffineInRange | UniformGenerator.cpp:41 | the affine map sends [0,1) into [A,B) when A < B |
| UniformGenerators.UniformVectorInRange | UniformGenerator.cpp:33-45 | with a rand()-based generator and A < B every element of getUniformVector lies in [A,B) |
| UniformGenerators.PairsAsWritten | UniformGenerator.cpp:47-66 | the routine as written returns N pairs; pair j < N-1 is (basis[2j], basis[2j+1]) and the last keeps its default (0, 0) |
| UniformGenerators.Pairs | UniformGenerator.cpp:47-66 | the intended pairing: one pair per two consecutive draws, half as many pairs as draws |
| UniformGenerators.Flatten | UniformGenerator.cpp:59-60 | laying pairs out again gives two values per pair |
| UniformGenerators.PairsRoundTrip | UniformGenerator.cpp:47-66 | the intended pairing loses no draw: flattening the pairs gives back the 2N-element basis vector |
| UniformGenerators.PairsAsWrittenDropsLastPair | UniformGenerator.cpp:54-63 | as written, the first N-1 pairs agree with the intended ones, the last is (0, 0) whatever was drawn, and the round trip fails unless the last two draws are both 0 |
| UniformGenerators.OnePairFromTerribleRand | UniformGenerator.cpp:47-66 | rand() returning 16384 twice draws 0.5 and 0.5, yet the one pair returned is (0, 0), where the intended pair is (0.5, 0.5) |
| UniformGenerators.UniformGenerator.TerribleRand | UniformGenerator.cpp:68-71 | factor is 1 + RAND_MAX, no draw made yet, the other classes' fields untouched |
| UniformGenerators.UniformGenerator.CRand | UniformGenerator.cpp:91-94 | factor is 1 + RAND_MAX, no draw made yet |
| UniformGenerators.UniformGenerator.MSSecureRand | UniformGenerator.cpp:114-117 | max is 1.0 and `number` holds whatever it was never assigned |
| UniformGenerators.UniformGenerator.Init | UniformGenerator.cpp:74-80 | the rand()-based generators restart rand() on a clock-chosen stream; the secure one changes nothing |
| UniformGenerators.UniformGenerator.GetUniform | UniformGenerator.cpp:85-141 | returns the next draw and advances by one; in [0,1) for rand(), in [0, max] and also stored in U1 for the secure generator |
| UniformGenerators.UniformGenerator.GetUniformVector | UniformGenerator.cpp:33-45 | consumes exactly N draws and returns UniformVector of them, in index order; bounds default to [0, 1); the secure generator's U1 holds its draw afterwards |
| UniformGenerators.UniformGenerator.GetUniformVectorPairs | UniformGenerator.cpp:47-66 | consumes 2N draws up front and returns PairsAsWritten of them; the secure generator's U1 holds its draw afterwards, and U1 is unchanged otherwise |
| NormalRuns.Normals | NormalGenerator.cpp:36-50 | k getNormal calls in a row yield exactly k values, in call order |
| NormalRuns.NormalRows | NormalGenerator.cpp:68-81 | a matrix fill yields N rows of M values each |
| NormalRuns.NormalsPrefix | NormalGenerator.cpp:36-50 | the values of a shorter run of calls are a prefix of a longer one's |
| NormalRuns.NormalsSplit | NormalGenerator.cpp:36-50 | a+b calls are a calls followed by b calls started where the first a left the uniform stream and Z |
| NormalRuns.RowsPrefix | NormalGenerator.cpp:68-81 | the rows of a shorter fill are the first rows of a taller one |
| NormalRuns.ConcatIndex | NormalGenerator.cpp:73-79 | entry (p, c) of rows of length M is element p*M + c of the rows laid end to end |
| NormalRuns.RowsAreConsecutiveNormals | NormalGenerator.cpp:68-81 | getNormalMatrix(N, M) succeeds exactly when N*M consecutive calls do, uses exactly their values row after row, and leaves the same stream position and Z |
| NormalRuns.MatrixIsRowMajor | NormalGenerator.cpp:73-79 | entry (p, c) of the matrix is the (p*M + c)-th of N*M consecutive getNormal results |
| NormalGenerators.Polar | NormalGenerator.cpp:100-101 | defines V = 2U - 1 |
| NormalGenerators.PolarW | NormalGenerator.cpp:103 | defines W = V1² + V2² of the attempt's two draws |
| NormalGenerators.PolarAccepts | NormalGenerator.cpp:105 | defines the do-while exit: `W > 1.0` is false |
| NormalGenerators.AcceptsAt | NormalGenerator.cpp:94-105 | defines that attempt a of a loop starting at draw d exists and is accepted: draws d+2a and d+2a+1 are in the stream and pass the exit test |
| NormalGenerators.PolarTerminates | NormalGenerator.cpp:94-105 | defines that the loop ends: some attempt is accepted |
| NormalGenerators.WFunction | NormalGenerator.cpp:107 | defines the factor sqrt(-2 log(W)/W) common to N1 and N2 |
| NormalGenerators.PolarNormal | NormalGenerator.cpp:107-112 | defines N1 = V1 * sqrt(-2 log(W)/W), the value the polar methods return |
| NormalGenerators.PolarCompanion | NormalGenerator.cpp:107-110 | defines N2 = V2 * sqrt(-2 log(W)/W), kept in the member and not returned |
| NormalGenerators.PolarStep | NormalGenerator.cpp:97-103 | bridge from the loop body's locals to PolarW: one attempt maps the two uniforms to V = 2U - 1 and forms W = V1² + V2² >= 0 |
| NormalGenerators.FirstAccept | NormalGenerator.cpp:94-105 | the attempt the do-while loop stops at is accepted and every earlier attempt was rejected |
| NormalGenerators.PolarOutput | NormalGenerator.cpp:107-110 | bridge from the method's locals to PolarNormal and PolarCompanion: V1 and V2 times sqrt(-2 log W / W) are the pair N1, N2 |
| NormalGenerators.PolarAccepted | NormalGenerator.cpp:94-110 | bridge from the loop's accepted attempt to PolarDraw: the attempt's V1 times sqrt(-2 log W / W) is the draw PolarDraw describes, ending after draw 2a+2, and V2 times the same factor is the companion N2 |
| NormalGenerators.TocherX | NormalGenerator.cpp:196 | defines X = magicNumber * log((1+U1)/(1-U2)) |
| NormalGenerators.TocherOutput | NormalGenerator.cpp:193-206 | bridge from the method's locals to TocherDraw: Tocher's step-by-step X and Z are the ones TocherDraw describes |
| NormalGenerators.PolarCanDraw | NormalGenerator.cpp:94-107 | defines when a polar call from draw d returns a real number: the loop ends and the W it accepts is not 0 |
| NormalGenerators.TocherCanDraw | NormalGenerator.cpp:193-196 | defines when Tocher's call returns a real number: two draws exist and 1 - U2 is not 0 |
| NormalGenerators.CanDraw | NormalGenerator.hpp:41 | defines, for each class, when one getNormal call from draw d returns a real number |
| NormalGenerators.PolarDraw | NormalGenerator.cpp:94-112 | defines a PolarMarsaglia call, and the same loop in BoxMuller (lines 136-154): the value is N1 of the first accepted attempt a, the stream is left after draw d+2a+2, and Z is not touched |
| NormalGenerators.TocherDraw | NormalGenerator.cpp:193-206 | defines Tocher's call: -X when U2 <= 0.5 and X otherwise, from the next two draws, with the result also left in Z |
| NormalGenerators.Uniform12Draw | NormalGenerator.cpp:222-231 | defines NormalFromUniform12's call: the kept Z plus the next twelve draws, less 6, both returned and kept as the new Z |
| NormalGenerators.NextNormal | NormalGenerator.hpp:41 | defines the hook: the call of the object's class, with its value, next stream position and Z |
| NormalGenerators.GetNormalStep | NormalGenerator.hpp:41 | defines getNormal as the step the base-class routines repeat: NextNormal where CanDraw holds, and no result otherwise |
| NormalGenerators.PolarAcceptance | NormalGenerator.cpp:92-113 | a polar call consumes two draws per attempt up to the first accepted one, the accepted W lies in (0, 1], every earlier W exceeded 1, the result is V1*sqrt(-2 log W / W) and Z is untouched |
| NormalGenerators.BoxMullerIsPolar | NormalGenerator.cpp:122-156 | bridge between the two kinds' entries in NextNormal (the method-level evidence is BoxMullerGetNormal's PolarDraw clause): on the same stream BoxMuller succeeds exactly when PolarMarsaglia does and returns the same value after the same draws |
| NormalGenerators.PolarSqrtArgumentNonNegative | NormalGenerator.cpp:107 | for an accepted W in (0, 1] the argument -2 log(W)/W of sqrt is non-negative |
| NormalGenerators.TocherLogArgumentAtLeastOne | NormalGenerator.cpp:196 | for U1, U2 in [0,1) the ratio (1+U1)/(1-U2) is defined and at least 1 |
| NormalGenerators.TocherSignRule | NormalGenerator.cpp:190-208 | Tocher consumes exactly two draws, always returns with a rand()-based source, X >= 0, the result is -X (<= 0) when U2 <= 0.5 and +X (>= 0) otherwise, and it is left in Z |
| NormalGenerators.Sum | NormalGenerator.cpp:224-227 | defines the sum of a sequence, added left to right as the `Z +=` loop adds |
| NormalGenerators.SumBounds | NormalGenerator.cpp:224-227 | a sum of k values in [0,1) lies in [0, k) |
| NormalGenerators.Uniform12Step | NormalGenerator.cpp:217-233 | one call consumes exactly twelve draws, adds their sum to Z, subtracts 6 and returns the new Z, which with rand() lies in [Z-6, Z+6) |
| NormalGenerators.Excess | NormalGenerator.cpp:224-229 | defines the total, over k successive calls from draw d, of each call's twelve-draw sum less 6 |
| NormalGenerators.Uniform12Accumulates | NormalGenerator.cpp:211-233 | Z is never reset: after k calls Z = Z0 + the sum over the calls of (draw sum - 6), call i returns that total after i+1 calls, and 12k draws are consumed |
| NormalGenerators.CentralLimitNormal | NormalGenerator.hpp:112-114 | defines the corrected twelve-uniform normal: the twelve draws' sum less 6, with no state carried between calls |
| NormalGenerators.CentralLimitNormalInRange | NormalGenerator.hpp:112-114 | the intended twelve-uniform normal, sum less 6, lies in [-6, 6) |
| NormalGenerators.SumOfConstant | NormalGenerator.cpp:224-227 | the running sum of k copies of c is k*c |
| NormalGenerators.Uniform12DriftExample | NormalGenerator.cpp:217-233 | rand() returning 24576 throughout: two calls from Z = 0 return 3 then 6, where the intended method returns 3 both times |
| NormalGenerators.GuardedAccepts | NormalGenerator.cpp:105 | defines the corrected exit test: accept only 0 < W <= 1 |
| NormalGenerators.GuardedFactorDefined | NormalGenerator.cpp:94-107 | under the guarded test (W > 0 added to the loop's W <= 1) the quotient -2 log(W)/W is defined and non-negative |
| NormalGenerators.PolarAcceptsZeroW | NormalGenerator.cpp:94-107 | rand() returning 16384 twice gives W = 0, which the loop as written accepts and the guarded test rejects |
| NormalGenerators.NormalGenerator.PolarMarsaglia | NormalGenerator.cpp:83-87 | the generator keeps the given uniform generator |
| NormalGenerators.NormalGenerator.BoxMuller | NormalGenerator.cpp:116-118 | tpi is fixed at 2 * 3.1415 |
| NormalGenerators.NormalGenerator.Tocher | NormalGenerator.cpp:183-186 | magicNumber is fixed once at sqrt(3.1415/8) |
| NormalGenerators.NormalGenerator.NormalFromUniform12 | NormalGenerator.cpp:211-214 | Z starts at whatever value it happens to hold |
| NormalGenerators.NormalGenerator.GetNormal | NormalGenerator.hpp:41 | the hook returns NextNormal for the object's class and moves the stream and Z as it says |
| NormalGenerators.NormalGenerator.PolarAttempt | NormalGenerator.cpp:97-103 | one do-while body: consumes two draws and returns V1, V2 and W of them |
| NormalGenerators.NormalGenerator.PolarLoop | NormalGenerator.cpp:94-105 | the loop consumes 2a+2 draws for the first accepted attempt a and ends with 0 < W <= 1 |
| NormalGenerators.NormalGenerator.PolarGetNormal | NormalGenerator.cpp:92-113 | returns N1 of the first accepted attempt a, keeps in the members that attempt's draws U1, U2 (draws 2a and 2a+1), its V1, V2, W and N2 = V2*sqrt(-2 log W / W); X is untouched |
| NormalGenerators.NormalGenerator.BoxMullerGetNormal | NormalGenerator.cpp:122-156 | the same value and draws as the polar method; W and N2 are those of the first accepted attempt's draws; U1, U2, V1, V2 are locals, so the members U1, U2, V1, V2 and X keep their values |
| NormalGenerators.NormalGenerator.TocherGetNormal | NormalGenerator.cpp:190-208 | returns TocherDraw of the next two draws and leaves U1, U2, X and Z set; V1, V2, W, N1 and N2 are untouched |
| NormalGenerators.NormalGenerator.Uniform12GetNormal | NormalGenerator.cpp:217-233 | adds twelve fresh uniforms to the kept Z, subtracts 6 and returns Z; no other member changes |
| NormalGenerators.NormalGenerator.GetNormalVector | NormalGenerator.cpp:36-50 | element i is the i-th of N consecutive getNormal results, and the stream and Z end where those calls leave them |
| NormalGenerators.NormalGenerator.FillRow | NormalGenerator.cpp:75-78 | one row of the matrix receives M consecutive getNormal results, column by column, and no other row changes |
| NormalGenerators.NormalGenerator.GetNormalMatrix | NormalGenerator.cpp:68-81 | an N-by-M matrix whose entry (p, c) is entry c of row p of NormalRows, with the stream and Z left where the fill leaves them |
| ShortRateSimulation.StepSize | Main.cpp:44 | with N >= 2 points, N-1 steps of size k span the SDE's interval |
| ShortRateSimulation.EulerStep | Main.cpp:64-65 | defines one explicit Euler step from rOld: rOld + drift(t, rOld)*k + diffusion(t, rOld)*sk*z, with t the new mesh time |
| ShortRateSimulation.IsEulerPath | Main.cpp:59-66 | defines an Euler path: one entry per mesh point, the first the initial condition, and entry n one EulerStep from entry n-1 with t = mesh[n] and the normal arr2[n] |
| ShortRateSimulation.BoxMullerNormals | Main.cpp:50-52 | defines the N normals Simulation draws: N consecutive calls of a BoxMuller over a TerribleRandGenerator on the given rand() values, from draw 0 and Z = 0 |
| ShortRateSimulation.EulerStepFrom | Main.cpp:63-65 | bridge from the loop body's locals to EulerStep: the value the loop body computes from rOld is one Euler step at the new time point |
| ShortRateSimulation.DrawNormals | Main.cpp:50-52 | the normals are getNormalVector(N) of a fresh BoxMuller over a fresh TerribleRandGenerator |
| ShortRateSimulation.Simulation | Main.cpp:36-71 | the result has one entry per mesh point, the mesh's first index, and is the Euler path for the step k, sqrt(k) and the drawn normals |
| ShortRateSimulation.EulerPathExtends | Main.cpp:61-66 | one more step from the last entry extends an Euler path by one mesh point |
| ShortRateSimulation.EulerPathUnique | Main.cpp:59-66 | the initial condition and the recurrence fix the path: two Euler paths on the same data are equal |
| ShortRateSimulation.ZeroCoefficientsKeepInitialCondition | Main.cpp:59-66 | with drift and diffusion identically zero every entry equals the initial condition |
| ShortRateSimulation.FirstNormalIsUnused | Main.cpp:52-65 | the normal at the mesh's first index is drawn but never read: changing it changes no Euler path |
| ShortRateSimulation.TimeHomogeneousMatchesTextbook | Main.cpp:64-65 | for coefficients that do not depend on time, evaluating them at mesh[n] gives the left-end scheme at mesh[n-1] |
| ShortRateSimulation.NewTimePointExample | Main.cpp:64-65 | for drift(t, r) = t the coefficients are taken at the new point: the path [0.05, 1.05] is an Euler path, while the left-end step gives 0.05 |
| ShortRateSimulation.NoNoisePath | Main.cpp:44-66 | two points on [0, 1], r0 = 0.05, no drift and no diffusion: the only Euler path is [0.05, 0.05] |

## Left out

- `main` in Main.cpp: console I/O, plus a factory, a prototype `Clone` and a `CIRSde` downcast that live in headers not part of this model. `IrSde` appears only as the drift, diffusion, initial condition and interval that `Simulation` reads. Being a value, it cannot be changed by a simulation.
- `BoostNormal`: a wrapper around Boost's engine and distribution, with no logic of its own.
- UniformGenerators.UniformGenerator.Init: each generator object holds its own copy of the `rand()` stream and its own cursor. In C++ `rand()` and `srand()` act on one process-wide state, so generators alive at the same time interleave their draws, and `init` on one re-seeds all of them. The model does not capture that sharing; in `Simulation` only one rand()-based generator exists, so there it makes no difference.
- The contents of `rand()`, `srand(time(0))` and `rand_s`. The values `rand()` returns are a parameter, and the clock's choice of stream is an argument of `Init`.
- IEEE rounding, NaN and infinities. `double` is `real`; `log` and `sqrt` carry only the facts each lemma states. `cos` and `sin` appear only in the commented-out closed form of `BoxMuller::getNormal` (NormalGenerator.cpp:125-132) and are dropped with it.
- The statistical claims: normality, moments, the acceptance rate of about pi/4 and the Euler error order.
- The `Vector`, `NumericMatrix` and `VectorSpace` containers. `Vector.cpp` is not part of this model.
  - Vectors are sequences or arrays, and `Simulation`'s `Vector` records its first index.
  - The first index `Vector(N)` uses is the `vectorStart` parameter of `Simulation`.
- The commented-out OpenMP pragma in `getUniformVector`.
- `getNormalVectorSpace<N>`: it is `getNormalVector` for an N fixed at compile time.
- The default `NormalGenerator()` constructor, which leaves `ug` null. Every modelled generator is built on a uniform generator.
- `PolarMarsaglia`'s member `W_function`: the method declares a local of the same name, so the member is never written.
- NormalGenerators.NormalGenerator.GetNormal: requires that the call returns a real number. The rand() stream must last until the polar loop accepts, the accepted W must not be 0, and Tocher's U2 must not be 1. The C++ loops forever, reads past the stream, or produces NaN/inf in those cases.
- NormalGenerators.NormalGenerator.PolarLoop: the do-while loop assigns the members U1, U2, V1, V2 and W on every attempt. The model keeps each attempt in locals and assigns the members once, at the end, from the accepted attempt. No other code runs in between, so the final state is the same.
- ShortRateSimulation.Simulation: for N = 1 the step k is taken as 0. The C++ value is a division by zero, and no step reads it.
- ShortRateSimulation.Simulation: requires at least one mesh point. For an empty mesh the C++ writes `result[result.MinIndex()]` into an empty `Vector` (Main.cpp:41, 59), which has no defined outcome.
- ShortRateSimulation.Simulation: requires that, with two or more points, the mesh's first index lies between `vectorStart - 1` and `vectorStart`, so that every `arr2[n]` the loop reads is an index of `arr2`. If they are not aligned, the C++ reads outside `arr2`, and the model does not describe that read.
- ShortRateSimulation.Simulation: requires that all N BoxMuller calls return a real number, including the one that draws the normal no step reads (`FirstNormalIsUnused`). A rand() stream whose first accepted W is 0 is therefore excluded, although the C++ path does not depend on that normal.
- ShortRateSimulation.Simulation: the generators are built inside `DrawNormals` rather than in the body itself; the draws and their order are the same.
- NormalGenerators.NormalGenerator.GetNormalMatrix: returns the filled `array2`. The inner loop over columns is the method `FillRow`.

## Findings

| source | as written | input that shows it | evidently intended | confidence | as-written member | corrected member |
|---|---|---|---|---|---|---|
| UniformGenerator.cpp:56 | the loop `j < result.MaxIndex()` fills only N-1 of the N pairs; the last stays (0, 0) | rand() returning 16384 twice, N = 1: draws 0.5 and 0.5, result [(0, 0)] | `j <= result.MaxIndex()`: pair j is (basis[2j], basis[2j+1]) for every j | high, not executed | UniformGenerators.PairsAsWrittenDropsLastPair | UniformGenerators.PairsRoundTrip |
| NormalGenerator.cpp:226 | `Z +=` accumulates into a member that is never reset (nor initialised), so every call adds to the previous result | rand() returning 24576 throughout, Z = 0: calls return 3 then 6, and 6 is outside the range [-6, 6) of twelve uniforms less 6 | a local sum starting at 0 each call: the result is the twelve draws' sum less 6 | high, not executed | NormalGenerators.Uniform12DriftExample | NormalGenerators.CentralLimitNormalInRange |
| NormalGenerator.cpp:105 | `while (W > 1.0)` accepts W = 0, after which -2 log(W)/W divides by zero | rand() returning 16384 twice: U1 = U2 = 0.5, V1 = V2 = 0, W = 0 accepted | the guarded test (W > 0 added to the loop's W <= 1): W = 0 is drawn again | high, not executed | NormalGenerators.PolarAcceptsZeroW | NormalGenerators.GuardedFactorDefined |
