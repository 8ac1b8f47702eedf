/** The density field job: `to3D` turns a flat index into a local grid
    coordinate, `GetNoise` evaluates the sealed density at that coordinate and
    `Execute` stores one sample per index. Floats are exact reals. */
module PointJobs {
  import opened Numerics
  import opened Vectors

  /** One entry of the field buffer: its local position and its density. */
  datatype BuffPoint = BuffPoint(pos: Vec3, value: real)

  /** The read-only inputs of one job run. */
  datatype PointJob = PointJob(size: Int3, position: Vec3, frequency: real, amplitude: real)

  /** The engine's 3D simplex noise, left uninterpreted. */
  type Noise = Vec3 -> real

  /** `to3D` divides by the x and y extents, which must therefore be nonzero. */
  predicate Divisible(size: Int3) {
    size.x != 0 && size.y != 0
  }

  /** The face rule: a coordinate at most 1 or at least one below the extent.
      On whole coordinates that is the first two layers and the last one; the
      fractional `y` and `z` of `to3D` leave the second layer mostly open. */
  predicate OnBorder(size: Int3, p: Vec3) {
    || p.x <= 1.0 || p.y <= 1.0 || p.z <= 1.0
    || p.x >= (size.x - 1) as real || p.y >= (size.y - 1) as real || p.z >= (size.z - 1) as real
  }

  /** The point in noise space at which an interior sample is taken. */
  function NoiseInput(job: PointJob, worldPos: Vec3): Vec3 {
    Scale(worldPos, job.frequency)
  }

  // ---------------------------------------------------------------------------
  // to3D
  // ---------------------------------------------------------------------------

  /** `to3D` as written: `%` and `/` are float operations, so only `x` is a
      whole number; `y` and `z` keep the fractional part of the quotient. */
  function To3D(size: Int3, i: int): Vec3
    requires Divisible(size)
  {
    Vec3(LocalX(size, i), LocalY(size, i), LocalZ(size, i))
  }

  /** `x = i % (float)size.x`: a whole number with the sign of `i`, in
      `[0, size.x)` for a non-negative index and a positive extent. */
  function LocalX(size: Int3, i: int): (x: real)
    requires Divisible(size)
    ensures IsIntegral(x)
    ensures 0 <= i && 0 < size.x ==> 0.0 <= x < size.x as real
  {
    IntegralRemainder(i, size.x);
    Rem(i as real, size.x as real)
  }

  /** `y = (i / (float)size.x) % (float)size.y`: in `[0, size.y)` for a
      non-negative index and positive extents, and not in general a whole
      number. */
  function LocalY(size: Int3, i: int): (y: real)
    requires Divisible(size)
    ensures 0 <= i && 0 < size.x && 0 < size.y ==> 0.0 <= y < size.y as real
  {
    Rem(i as real / size.x as real, size.y as real)
  }

  /** `z = i / ((float)size.x * (float)size.y)`: the index in units of whole
      layers, so `z` alone determines `i`. */
  function LocalZ(size: Int3, i: int): (z: real)
    requires Divisible(size)
    ensures z * (size.x as real * size.y as real) == i as real
  {
    var sxy := size.x as real * size.y as real;
    NonZeroProduct(size.x as real, size.y as real);
    DivMul(i as real, sxy);
    i as real / sxy
  }

  /** The float remainder of two whole numbers is a whole number. */
  lemma IntegralRemainder(a: int, m: int)
    requires m != 0
    ensures IsIntegral(Rem(a as real, m as real))
  {
    var n := if m < 0 then -m else m;
    assert Abs(m as real) == n as real;
    if 0 <= a {
      IntegralFMod(a, n);
    } else {
      IntegralFMod(-a, n);
      NegateIntegral(FMod(-a as real, n as real));
    }
  }

  /** Every index of a grid of positive extents maps inside the grid box. */
  lemma {:induction false} To3DInGrid(size: Int3, i: int)
    requires 0 < size.x && 0 < size.y && 0 < size.z
    requires 0 <= i < size.x * size.y * size.z
    ensures 0.0 <= LocalX(size, i) < size.x as real
    ensures 0.0 <= LocalY(size, i) < size.y as real
    ensures 0.0 <= LocalZ(size, i) < size.z as real
  {
    var sxy := size.x as real * size.y as real;
    assert 0.0 < sxy;
    assert (size.x * size.y * size.z) as real == size.z as real * sxy;
    QuotientWithin(0.0, i as real, size.z as real, sxy);
    assert LocalZ(size, i) == i as real / sxy;
  }

  /** `z` grows strictly with the index. */
  lemma {:induction false} LocalZStrictlyIncreasing(size: Int3, i: int, j: int)
    requires 0 < size.x && 0 < size.y && i < j
    ensures LocalZ(size, i) < LocalZ(size, j)
  {
    var sxy := size.x as real * size.y as real;
    assert 0.0 < sxy;
    var zi, zj := LocalZ(size, i), LocalZ(size, j);
    if zj <= zi {
      MulMonotone(zj, zi, sxy);
      assert false;
    }
  }

  /** `to3D` never sends two indices to the same point. */
  lemma {:induction false} To3DInjective(size: Int3, i: int, j: int)
    requires Divisible(size) && i != j
    ensures To3D(size, i) != To3D(size, j)
  {
    var sxy := size.x as real * size.y as real;
    var zi, zj := LocalZ(size, i), LocalZ(size, j);
    assert zi * sxy == i as real && zj * sxy == j as real;
    assert zi != zj;
  }

  /** The row-major decomposition `(i mod S.x, (i div S.x) mod S.y, i div (S.x*S.y))`
      is what `to3D` yields after rounding each component down; `x` needs no
      rounding. */
  lemma {:induction false} LocalXIsRowMajor(size: Int3, i: int)
    requires 0 < size.x && 0 < size.y && 0 <= i
    ensures LocalX(size, i) == (i % size.x) as real
  {
    FloorOfRatio(i, size.x);
    assert LocalX(size, i) == FMod(i as real, size.x as real);
    CastProduct(size.x, i / size.x);
    assert FMod(i as real, size.x as real) == (i - size.x * (i / size.x)) as real;
  }

  lemma {:induction false} LocalYFloorIsRowMajor(size: Int3, i: int)
    requires 0 < size.x && 0 < size.y && 0 <= i
    ensures LocalY(size, i).Floor == (i / size.x) % size.y
  {
    var a := i / size.x;
    var f := (i % size.x) as real / size.x as real;
    WholeAndFraction(i, size.x);
    var b, r := a / size.y, a % size.y;
    CastSum(size.y, b, r);
    RemainderOfSplit(i as real / size.x as real, size.y as real, b, r as real, f);
    assert LocalY(size, i) == FMod(i as real / size.x as real, size.y as real);
    FloorUnique(LocalY(size, i), r);
  }

  lemma {:induction false} LocalZFloorIsRowMajor(size: Int3, i: int)
    requires 0 < size.x && 0 < size.y && 0 <= i
    ensures LocalZ(size, i).Floor == i / (size.x * size.y)
  {
    FloorOfRatio(i, size.x * size.y);
    assert LocalZ(size, i) == i as real / (size.x * size.y) as real;
  }

  lemma RemapInjective(x: real, y: real, amplitude: real)
    requires amplitude != 0.0 && x != y
    ensures Remap(x, amplitude) != Remap(y, amplitude)
  {
    if x < y {
      RemapStrict(x, y, amplitude);
    } else {
      RemapStrict(y, x, amplitude);
    }
  }

  /** With a positive amplitude the remap is strictly increasing, with a
      negative one strictly decreasing. */
  lemma RemapStrict(x: real, y: real, amplitude: real)
    requires x < y
    ensures 0.0 < amplitude ==> Remap(x, amplitude) < Remap(y, amplitude)
    ensures amplitude < 0.0 ==> Remap(y, amplitude) < Remap(x, amplitude)
  {
    var u, v := (x + 1.0) / 2.0, (y + 1.0) / 2.0;
    if 0.0 < amplitude {
      ScaleStrict(u, v, amplitude, Remap(x, amplitude), Remap(y, amplitude));
    } else if amplitude < 0.0 {
      ScaleStrict(u, v, -amplitude, -Remap(x, amplitude), -Remap(y, amplitude));
    }
  }

  /** On a grid of edge 8, index 9 is the cell (1, 1, 0) of the row-major order,
      but `to3D` places it at (1, 1.125, 0.140625). */
  lemma To3DKeepsFractions()
    ensures To3D(Splat(8), 9) == Vec3(1.0, 1.125, 0.140625)
    ensures !IsIntegral(To3D(Splat(8), 9).y)
  {
    FloorUnique(9.0 / 8.0, 1);
    FloorUnique(9.0 / 8.0 / 8.0, 0);
    FloorUnique(1.125, 1);
  }

  /** The seal is one cell thick at the high faces and, in `y` and `z`, at the
      low faces too: on a grid of edge 8 the row-major cells (6, 3, 3),
      (3, 6, 3) and (3, 1, 3) lie next to a face, yet `to3D` places their
      indices 222, 243 and 203 off the border. */
  lemma SealIsOneSided()
    ensures To3D(Splat(8), 222) == Vec3(6.0, 3.75, 3.46875)
    ensures To3D(Splat(8), 243) == Vec3(3.0, 6.375, 3.796875)
    ensures To3D(Splat(8), 203) == Vec3(3.0, 1.375, 3.171875)
    ensures !OnBorder(Splat(8), To3D(Splat(8), 222))
    ensures !OnBorder(Splat(8), To3D(Splat(8), 243))
    ensures !OnBorder(Splat(8), To3D(Splat(8), 203))
  {
    FloorUnique(222.0 / 8.0, 27);
    FloorUnique(222.0 / 8.0 / 8.0, 3);
    FloorUnique(243.0 / 8.0, 30);
    FloorUnique(243.0 / 8.0 / 8.0, 3);
    FloorUnique(203.0 / 8.0, 25);
    FloorUnique(203.0 / 8.0 / 8.0, 3);
  }

  // ---------------------------------------------------------------------------
  // GetNoise
  // ---------------------------------------------------------------------------

  /** The sealed density: `-1` on the border, otherwise height
      below the sample plus the noise remapped from [-1, 1] to [0, amplitude]. */
  function GetNoise(job: PointJob, snoise: Noise, worldPos: Vec3, localPos: Vec3): (v: real)
    ensures OnBorder(job.size, localPos) ==> v == -1.0
    ensures !OnBorder(job.size, localPos) && 0.0 <= job.amplitude
              && -1.0 <= snoise(NoiseInput(job, worldPos)) <= 1.0
            ==> -worldPos.y <= v <= -worldPos.y + job.amplitude
  {
    if localPos.x <= 1.0 || localPos.y <= 1.0 || localPos.z <= 1.0 then -1.0
    else if localPos.x >= (job.size.x - 1) as real || localPos.y >= (job.size.y - 1) as real
         || localPos.z >= (job.size.z - 1) as real then -1.0
    else
      -worldPos.y + Remap(snoise(NoiseInput(job, worldPos)), job.amplitude)
  }

  /** `n = (n + 1) / 2; n *= amplitude`: noise in [-1, 1] lands in [0, amplitude]. */
  function Remap(n: real, amplitude: real): (s: real)
    ensures 0.0 <= amplitude && -1.0 <= n <= 1.0 ==> 0.0 <= s <= amplitude
  {
    (n + 1.0) / 2.0 * amplitude
  }

  /** On the border neither the noise, nor the frequency, nor the amplitude, nor
      the world position has any influence on the density. */
  lemma BorderIgnoresNoise(j1: PointJob, j2: PointJob, n1: Noise, n2: Noise,
                           w1: Vec3, w2: Vec3, localPos: Vec3)
    requires j1.size == j2.size && OnBorder(j1.size, localPos)
    ensures GetNoise(j1, n1, w1, localPos) == GetNoise(j2, n2, w2, localPos) == -1.0
  {
  }

  /** Away from the border, with a nonzero amplitude, two noise functions that
      disagree at the sample point give different densities: the border is
      exactly where the noise is ignored. */
  lemma {:induction false} InteriorFollowsNoise(job: PointJob, n1: Noise, n2: Noise,
                                                worldPos: Vec3, localPos: Vec3)
    requires !OnBorder(job.size, localPos) && job.amplitude != 0.0
    requires n1(NoiseInput(job, worldPos)) != n2(NoiseInput(job, worldPos))
    ensures GetNoise(job, n1, worldPos, localPos) != GetNoise(job, n2, worldPos, localPos)
  {
    var x, y := n1(NoiseInput(job, worldPos)), n2(NoiseInput(job, worldPos));
    RemapInjective(x, y, job.amplitude);
    assert GetNoise(job, n1, worldPos, localPos) == -worldPos.y + Remap(x, job.amplitude);
    assert GetNoise(job, n2, worldPos, localPos) == -worldPos.y + Remap(y, job.amplitude);
  }

  /** Away from the border the density is the height bias `-worldPos.y` plus
      `amplitude * (n + 1) / 2`, where `n` is the noise at `worldPos * frequency`. */
  lemma InteriorDensity(job: PointJob, snoise: Noise, worldPos: Vec3, localPos: Vec3)
    requires !OnBorder(job.size, localPos)
    ensures GetNoise(job, snoise, worldPos, localPos)
            == -worldPos.y + job.amplitude * (snoise(Scale(worldPos, job.frequency)) + 1.0) / 2.0
  {
  }

  // ---------------------------------------------------------------------------
  // Execute
  // ---------------------------------------------------------------------------

  /** The sample `Execute` computes for one index. */
  function Sample(job: PointJob, snoise: Noise, index: int): BuffPoint
    requires Divisible(job.size)
  {
    var localPos := To3D(job.size, index);
    var worldPos := Add(job.position, localPos);
    BuffPoint(localPos, GetNoise(job, snoise, worldPos, localPos))
  }

  /** One work item: writes the sample of `index` and no other entry. */
  function Execute(job: PointJob, snoise: Noise, points: seq<BuffPoint>, index: int): (r: seq<BuffPoint>)
    requires Divisible(job.size) && 0 <= index < |points|
    ensures |r| == |points|
    ensures r[index].pos == To3D(job.size, index)
    ensures r[index].value == GetNoise(job, snoise, Add(job.position, r[index].pos), r[index].pos)
    ensures forall j :: 0 <= j < |points| && j != index ==> r[j] == points[j]
  {
    points[index := Sample(job, snoise, index)]
  }

  /** Work items on different indices commute, so any interleaving of a
      parallel schedule gives the same array. */
  lemma ExecuteCommutes(job: PointJob, snoise: Noise, points: seq<BuffPoint>, i: int, j: int)
    requires Divisible(job.size) && 0 <= i < |points| && 0 <= j < |points| && i != j
    ensures Execute(job, snoise, Execute(job, snoise, points, i), j)
            == Execute(job, snoise, Execute(job, snoise, points, j), i)
  {
  }

  /** Reference definition of a finished run: entry `i` is the sample of `i`. */
  function Field(job: PointJob, snoise: Noise, n: nat): seq<BuffPoint>
    requires Divisible(job.size)
  {
    seq(n, i => Sample(job, snoise, i))
  }

  /** The whole job, one `Execute` per index in turn. Each work item touches
      only its own entry, so this order stands for any parallel schedule. The
      result is the reference field: every old entry is overwritten and the
      outcome depends only on the job, the noise and the array length. */
  method RunPointJob(job: PointJob, snoise: Noise, points: seq<BuffPoint>) returns (out: seq<BuffPoint>)
    requires Divisible(job.size)
    ensures |out| == |points|
    ensures forall i :: 0 <= i < |out| ==> out[i] == Sample(job, snoise, i)
    ensures out == Field(job, snoise, |points|)
  {
    out := points;
    var index := 0;
    while index < |points|
      invariant 0 <= index <= |points|
      invariant |out| == |points|
      invariant forall i :: 0 <= i < index ==> out[i] == Sample(job, snoise, i)
    {
      out := Execute(job, snoise, out, index);
      index := index + 1;
    }
  }

  /** Every sample of a finished run that lies on the border holds `-1`. */
  lemma FieldIsSealed(job: PointJob, snoise: Noise, n: nat, i: int)
    requires Divisible(job.size) && 0 <= i < n
    requires OnBorder(job.size, Field(job, snoise, n)[i].pos)
    ensures Field(job, snoise, n)[i].value == -1.0
  {
  }
}
