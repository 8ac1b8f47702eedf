/** The chunk component: its inspector parameters, the GPU and native
    resources it owns, and its life cycle `Start`, `Update`, `Build` and
    `OnDestroy`, with the two parameter setters. Engine calls that may throw
    are modelled by an `Outcome` that records the state at the throw. */
module Chunks {
  import opened Numerics
  import opened Vectors
  import opened PointJobs
  import opened MeshAssembly
  import opened AppendBuffers

  /** The `MarchingCube` compute kernel, left uninterpreted: from the uploaded
      field, the threshold, the chunk edge and the thread groups per axis, the
      triangles it appends, in append order. */
  type Kernel = (seq<BuffPoint>, real, int, int) -> seq<BuffTriangle>

  /** A `ComputeBuffer` or `NativeArray` field: never assigned, allocated, or
      disposed. */
  datatype Handle = Unset | Live | Disposed

  /** Which of W, A, S and D are held this frame. */
  datatype Keys = Keys(w: bool, a: bool, s: bool, d: bool)

  datatype Fault =
    | InvalidBufferCount   // a ComputeBuffer whose element count is not positive
    | NotAllocated         // the points array is not allocated (before Start or after OnDestroy)
    | ReadbackOutOfRange   // the append counter exceeds the triangle buffer's capacity
    | MeshTooLarge         // 3 * trisCount does not fit a C# int

  datatype Chunk = Chunk(
    size: int,
    noisePosition: Vec3,
    noiseAmplitude: real,
    noiseFrequency: real,
    threshold: real,
    isBufferInitialized: bool,
    pointsBuffer: Handle,
    pointsCount: int,
    uploaded: seq<BuffPoint>,
    trianglesBuffer: Handle,
    triangles: AppendBuffer<BuffTriangle>,
    points: Handle,
    field: seq<BuffPoint>,
    mesh: Mesh)

  /** A call either completes or throws; either way the chunk keeps the state
      it had reached. */
  datatype Outcome = Done(chunk: Chunk) | Threw(chunk: Chunk, fault: Fault)

  /** The public parameters that drive a build. */
  datatype Settings = Settings(size: int, noisePosition: Vec3, noiseAmplitude: real,
                               noiseFrequency: real, threshold: real)

  function SettingsOf(c: Chunk): Settings {
    Settings(c.size, c.noisePosition, c.noiseAmplitude, c.noiseFrequency, c.threshold)
  }

  /** Zeroed storage, as fresh buffers and arrays are handed out. */
  const BlankPoint: BuffPoint := BuffPoint(Zero, 0.0)
  const BlankTriangle: BuffTriangle := BuffTriangle(Zero, Zero, Zero)

  /** A component as the inspector configures it, before `Start`. */
  function Fresh(size: int, noisePosition: Vec3, noiseAmplitude: real,
                 noiseFrequency: real, threshold: real): (c: Chunk)
    ensures Unstarted(c) && Coherent(c)
  {
    Chunk(size, noisePosition, noiseAmplitude, noiseFrequency, threshold,
          false, Unset, 0, [], Unset, AppendBuffer([], 0), Unset, [], EmptyMesh)
  }

  predicate Unstarted(c: Chunk) {
    !c.isBufferInitialized && c.pointsBuffer == Unset && c.trianglesBuffer == Unset && c.points == Unset
  }

  /** What every reachable state satisfies: the flag implies that both GPU
      buffers were created, and a live points array comes with live buffers,
      a nonzero edge and matching lengths. */
  predicate Coherent(c: Chunk) {
    && (c.isBufferInitialized ==> c.pointsBuffer != Unset && c.trianglesBuffer != Unset)
    && (c.points == Live ==>
          && c.isBufferInitialized && c.pointsBuffer == Live && c.trianglesBuffer == Live
          && c.size != 0 && c.pointsCount == |c.field| == |c.uploaded|)
  }

  /** The fields a build leaves alone. */
  predicate SameResources(c: Chunk, d: Chunk) {
    && SettingsOf(d) == SettingsOf(c)
    && d.isBufferInitialized == c.isBufferInitialized
    && d.pointsBuffer == c.pointsBuffer && d.pointsCount == c.pointsCount
    && d.trianglesBuffer == c.trianglesBuffer && Capacity(d.triangles) == Capacity(c.triangles)
    && d.points == c.points && |d.field| == |c.field|
  }

  // ---------------------------------------------------------------------------
  // Build
  // ---------------------------------------------------------------------------

  /** The job `Build` schedules: the edge on all three axes and the current
      noise parameters. */
  function JobOf(c: Chunk): PointJob {
    PointJob(Splat(c.size), c.noisePosition, c.noiseFrequency, c.noiseAmplitude)
  }

  /** `Mathf.CeilToInt(size / 8f)`: thread groups per axis for 8x8x8 groups. */
  function GroupCount(size: int): int {
    CeilToInt(size as real / 8.0)
  }

  /** The dispatch covers the grid with less than one spare group per axis. */
  lemma GroupsCoverGrid(size: int)
    requires 1 <= size
    ensures var th := GroupCount(size);
            1 <= th && size <= 8 * th && 8 * (th - 1) < size && th == (size + 7) / 8
  {
    var th := GroupCount(size);
    var q := size as real / 8.0;
    assert q * 8.0 == size as real;
    MulMonotone(q, th as real, 8.0);
    MulStrict((th - 1) as real, q, 8.0);
    assert (size as real) <= (8 * th) as real;
    assert (8 * (th - 1)) as real < size as real;
  }

  /** The triangles this chunk's kernel appends for its current parameters. */
  function Emitted(c: Chunk, snoise: Noise, kernel: Kernel): seq<BuffTriangle>
    requires c.size != 0
  {
    kernel(Field(JobOf(c), snoise, |c.field|), c.threshold, c.size, GroupCount(c.size))
  }

  /** What a build of `c` leaves behind: the field of the current parameters
      in the array and the points buffer, the counter at this dispatch's
      count, and, when the triangles fit, a mesh of exactly this dispatch's
      triangles; otherwise the fault the readback raises and the old mesh. */
  predicate Rebuilt(c: Chunk, r: Outcome, snoise: Noise, kernel: Kernel)
    requires c.size != 0
  {
    var emitted := Emitted(c, snoise, kernel);
    && SameResources(c, r.chunk)
    && r.chunk.field == Field(JobOf(c), snoise, |c.field|)
    && r.chunk.uploaded == r.chunk.field
    && r.chunk.triangles.counter == |emitted|
    && (r.Done? <==> |emitted| <= Capacity(c.triangles) && 3 * |emitted| <= Int32Max)
    && (r.Threw? ==> r.fault == (if |emitted| <= Capacity(c.triangles) then MeshTooLarge else ReadbackOutOfRange))
    && (r.Done? ==> r.chunk.mesh == Mesh(Flatten(emitted), Iota(3 * |emitted|)))
    && (r.Threw? ==> r.chunk.mesh == c.mesh)
  }

  /** `Build`: run the point job, upload the field, reset the append counter,
      dispatch, read the count and that many triangles back, and rebuild the
      mesh from them. */
  method Build(c: Chunk, snoise: Noise, kernel: Kernel) returns (r: Outcome)
    requires Coherent(c)
    ensures Coherent(r.chunk)
    ensures c.points != Live ==> r == Threw(c, NotAllocated)
    ensures c.points == Live ==> Rebuilt(c, r, snoise, kernel)
  {
    if c.points != Live {
      return Threw(c, NotAllocated);
    }
    var field := RunPointJob(JobOf(c), snoise, c.field);
    var c1 := c.(field := field, uploaded := field);
    var th := GroupCount(c.size);
    var emitted := kernel(field, c.threshold, c.size, th);
    var buffer := AppendAll(ResetCounter(c.triangles), emitted);
    var c2 := c1.(triangles := buffer);
    var trisCount := GetBufferCount(buffer);
    ReadbackAfterReset(c.triangles, emitted);
    var read := Readback(buffer, trisCount);
    if read.None? {
      return Threw(c2, ReadbackOutOfRange);
    }
    if trisCount * 3 > Int32Max {
      return Threw(c2, MeshTooLarge);
    }
    var vertices, indices := AssembleMesh(read.value);
    r := Done(c2.(mesh := Mesh(vertices, indices)));
  }

  /** After a successful build the mesh draws exactly the dispatched triangles. */
  lemma RebuiltMeshDrawsEmitted(c: Chunk, r: Outcome, snoise: Noise, kernel: Kernel)
    requires c.size != 0 && Rebuilt(c, r, snoise, kernel) && r.Done?
    ensures |r.chunk.mesh.indices| % 3 == 0
    ensures forall j :: 0 <= j < |r.chunk.mesh.indices| ==> 0 <= r.chunk.mesh.indices[j] < |r.chunk.mesh.vertices|
    ensures Rendered(r.chunk.mesh) == Emitted(c, snoise, kernel)
  {
    RenderedAssembly(Emitted(c, snoise, kernel));
  }

  /** A build depends only on the parameters and the sizes, not on the old
      field, the old triangles or the old counter: two builds with the same
      settings agree. */
  lemma RebuildIsDeterministic(c: Chunk, d: Chunk, rc: Outcome, rd: Outcome, snoise: Noise, kernel: Kernel)
    requires c.size != 0 && SettingsOf(c) == SettingsOf(d)
    requires |c.field| == |d.field| && Capacity(c.triangles) == Capacity(d.triangles)
    requires Rebuilt(c, rc, snoise, kernel) && Rebuilt(d, rd, snoise, kernel)
    ensures rc.chunk.field == rd.chunk.field && rc.chunk.triangles.counter == rd.chunk.triangles.counter
    ensures rc.Done? == rd.Done? && (rc.Done? ==> rc.chunk.mesh == rd.chunk.mesh)
  {
    assert JobOf(c) == JobOf(d);
    assert Emitted(c, snoise, kernel) == Emitted(d, snoise, kernel);
  }

  // ---------------------------------------------------------------------------
  // Start
  // ---------------------------------------------------------------------------

  /** `size * size * size` as a C# `int`. */
  function PointsAmount(size: int): (n: int)
    ensures 1 <= size <= 754 ==> n == size * size * size && 1 <= n && 5 * n <= Int32Max
    ensures -1290 <= size <= 0 ==> n <= 0
  {
    CubeFits(size);
    Wrap32(size * size * size)
  }

  /** `pointsAmount * 5` as a C# `int`. */
  function TriangleCapacity(pointsAmount: int): (n: int)
    ensures 5 * pointsAmount <= Int32Max && 0 <= pointsAmount ==> n == 5 * pointsAmount
  {
    Wrap32(pointsAmount * 5)
  }

  /** `Start` up to the first build: a fresh mesh, the points buffer of
      `size^3` entries, the triangle buffer of five times that with its
      counter at zero, the flag, and the points array. Both products are C#
      `int` products and wrap; a buffer whose count is not positive throws. */
  function Allocate(c: Chunk): (r: Outcome)
    requires Unstarted(c)
    ensures Coherent(r.chunk)
    ensures SettingsOf(r.chunk) == SettingsOf(c) && r.chunk.mesh == EmptyMesh
    ensures r.chunk.isBufferInitialized <==> r.chunk.trianglesBuffer == Live
    ensures r.Done? ==> r.chunk.isBufferInitialized && r.chunk.points == Live
    ensures r.Threw? ==> r.fault == InvalidBufferCount && r.chunk.points == Unset
  {
    var c0 := c.(mesh := EmptyMesh);
    var pointsAmount := PointsAmount(c.size);
    if pointsAmount <= 0 then Threw(c0, InvalidBufferCount)
    else
      var c1 := c0.(pointsBuffer := Live, pointsCount := pointsAmount,
                    uploaded := seq(pointsAmount, _ => BlankPoint));
      var capacity := TriangleCapacity(pointsAmount);
      if capacity <= 0 then Threw(c1, InvalidBufferCount)
      else
        var c2 := c1.(trianglesBuffer := Live,
                      triangles := ResetCounter(AppendBuffer(seq(capacity, _ => BlankTriangle), 0)));
        var c3 := c2.(isBufferInitialized := true);
        Done(c3.(points := Live, field := seq(pointsAmount, _ => BlankPoint)))
  }

  /** For edges 1 to 754 nothing wraps: the points array and buffer hold
      `size^3` entries and the triangle buffer `5 * size^3`, with its counter
      at zero. An edge in `[-1290, 0]` makes the first buffer throw. */
  lemma AllocateSizes(c: Chunk)
    requires Unstarted(c)
    ensures 1 <= c.size <= 754 ==>
              var r := Allocate(c);
              && r.Done?
              && r.chunk.pointsCount == |r.chunk.field| == c.size * c.size * c.size
              && Capacity(r.chunk.triangles) == 5 * (c.size * c.size * c.size)
              && r.chunk.triangles.counter == 0
    ensures -1290 <= c.size <= 0 ==> Allocate(c) == Threw(c.(mesh := EmptyMesh), InvalidBufferCount)
  {
    var n := PointsAmount(c.size);
    if 1 <= c.size <= 754 {
      assert TriangleCapacity(n) == 5 * n;
    }
  }

  /** Edges up to 754 keep both products in range; the cube of an edge in
      `[-1290, 0]` is in range and not positive. */
  lemma CubeFits(size: int)
    ensures 1 <= size <= 754 ==> 1 <= size * size * size && 5 * (size * size * size) <= Int32Max
    ensures -1290 <= size <= 0 ==> Int32Min <= size * size * size <= 0
  {
    if 1 <= size <= 754 {
      CubeMonotone(size, 754);
      CubeMonotone(1, size);
    } else if -1290 <= size <= 0 {
      CubeMonotone(-size, 1290);
      assert size * size * size == -((-size) * (-size) * (-size));
    }
  }

  lemma CubeMonotone(a: int, b: int)
    requires 0 <= a <= b
    ensures 0 <= a * a * a <= b * b * b
  {
    assert a * a <= b * b by {
      MulMonotoneInt(a, b, a);
      MulMonotoneInt(a, b, b);
    }
    MulMonotoneInt(a * a, b * b, a);
    MulMonotoneInt(a, b, b * b);
  }

  /** `Start`: allocate, then build. The flag is set before the first build,
      so a build that throws still leaves both GPU buffers to `OnDestroy`. */
  method Start(c: Chunk, snoise: Noise, kernel: Kernel) returns (r: Outcome)
    requires Unstarted(c)
    ensures Coherent(r.chunk)
    ensures SettingsOf(r.chunk) == SettingsOf(c)
    ensures Allocate(c).Threw? ==> r == Allocate(c)
    ensures Allocate(c).Done? ==> Rebuilt(Allocate(c).chunk, r, snoise, kernel)
    ensures 1 <= c.size <= 754 ==>
              && r.chunk.isBufferInitialized && r.chunk.points == Live
              && r.chunk.pointsCount == |r.chunk.field| == c.size * c.size * c.size
              && Capacity(r.chunk.triangles) == 5 * (c.size * c.size * c.size)
  {
    r := Allocate(c);
    if r.Done? {
      r := Build(r.chunk, snoise, kernel);
    }
  }

  /** Marching cubes appends at most five triangles per grid point, so such a
      kernel always fits the buffer `Start` sizes; up to edge 523 the vertex
      count `3 * trisCount` also fits an `int`, so the build cannot throw. */
  lemma ConformantKernelFits(c: Chunk, n: int)
    requires Unstarted(c) && 1 <= c.size <= 754 && n <= 5 * (c.size * c.size * c.size)
    ensures n <= Capacity(Allocate(c).chunk.triangles)
    ensures c.size <= 523 ==> 3 * n <= Int32Max
  {
    if c.size <= 523 {
      CubeMonotone(c.size, 523);
    }
  }

  // ---------------------------------------------------------------------------
  // Update and the setters
  // ---------------------------------------------------------------------------

  /** The four key tests in source order; a later key overrides an earlier
      one on the same axis. */
  function Direction(keys: Keys): (dir: Vec3)
    ensures dir.x == (if keys.d then 1.0 else if keys.a then -1.0 else 0.0)
    ensures dir.y == 0.0
    ensures dir.z == (if keys.s then -1.0 else if keys.w then 1.0 else 0.0)
    ensures dir != Zero <==> keys.w || keys.a || keys.s || keys.d
  {
    var dir := Zero;
    var dir := if keys.w then dir.(z := 1.0) else dir;
    var dir := if keys.a then dir.(x := -1.0) else dir;
    var dir := if keys.s then dir.(z := -1.0) else dir;
    if keys.d then dir.(x := 1.0) else dir
  }

  function Moved(c: Chunk, dir: Vec3): Chunk {
    c.(noisePosition := Add(c.noisePosition, dir))
  }

  /** `Update`: with no key held nothing happens; otherwise the noise origin
      moves by the direction and the chunk is rebuilt. */
  method Update(c: Chunk, keys: Keys, snoise: Noise, kernel: Kernel) returns (r: Outcome)
    requires Coherent(c)
    ensures Coherent(r.chunk)
    ensures !(keys.w || keys.a || keys.s || keys.d) ==> r == Done(c)
    ensures (keys.w || keys.a || keys.s || keys.d) ==>
              var m := Moved(c, Direction(keys));
              && SettingsOf(r.chunk) == SettingsOf(c).(noisePosition := m.noisePosition)
              && (c.points != Live ==> r == Threw(m, NotAllocated))
              && (c.points == Live ==> Rebuilt(m, r, snoise, kernel))
  {
    var dir := Direction(keys);
    if dir != Zero {
      r := Build(Moved(c, dir), snoise, kernel);
    } else {
      r := Done(c);
    }
  }

  /** `SetFrequency`: only the frequency changes, then the chunk is rebuilt. */
  method SetFrequency(c: Chunk, f: real, snoise: Noise, kernel: Kernel) returns (r: Outcome)
    requires Coherent(c)
    ensures Coherent(r.chunk)
    ensures SettingsOf(r.chunk) == SettingsOf(c).(noiseFrequency := f)
    ensures c.points != Live ==> r == Threw(c.(noiseFrequency := f), NotAllocated)
    ensures c.points == Live ==> Rebuilt(c.(noiseFrequency := f), r, snoise, kernel)
  {
    r := Build(c.(noiseFrequency := f), snoise, kernel);
  }

  /** `SetAmplitude`: only the amplitude changes, then the chunk is rebuilt. */
  method SetAmplitude(c: Chunk, a: real, snoise: Noise, kernel: Kernel) returns (r: Outcome)
    requires Coherent(c)
    ensures Coherent(r.chunk)
    ensures SettingsOf(r.chunk) == SettingsOf(c).(noiseAmplitude := a)
    ensures c.points != Live ==> r == Threw(c.(noiseAmplitude := a), NotAllocated)
    ensures c.points == Live ==> Rebuilt(c.(noiseAmplitude := a), r, snoise, kernel)
  {
    r := Build(c.(noiseAmplitude := a), snoise, kernel);
  }

  // ---------------------------------------------------------------------------
  // OnDestroy
  // ---------------------------------------------------------------------------

  /** `Dispose` on a compute buffer; a second call does nothing. */
  function Dispose(h: Handle): Handle {
    if h == Live then Disposed else h
  }

  /** `OnDestroy`: the GPU buffers are disposed only under the flag; the
      points array is disposed unconditionally, which throws when it was
      never allocated or is already gone. */
  function OnDestroy(c: Chunk): (r: Outcome)
    requires Coherent(c)
    ensures Coherent(r.chunk)
    ensures SettingsOf(r.chunk) == SettingsOf(c) && r.chunk.mesh == c.mesh
    ensures c.isBufferInitialized ==> r.chunk.pointsBuffer != Live && r.chunk.trianglesBuffer != Live
    ensures !c.isBufferInitialized ==>
              r.chunk.pointsBuffer == c.pointsBuffer && r.chunk.trianglesBuffer == c.trianglesBuffer
    ensures r.chunk.points != Live
    ensures r.Done? <==> c.points == Live
    ensures r.Threw? ==> r.fault == NotAllocated
  {
    var c1 := if c.isBufferInitialized
              then c.(trianglesBuffer := Dispose(c.trianglesBuffer), pointsBuffer := Dispose(c.pointsBuffer))
              else c;
    if c.points == Live then Done(c1.(points := Disposed)) else Threw(c1, NotAllocated)
  }

  /** Nothing is left live after destroying a chunk whose `Start` reached the
      flag, whether or not its builds threw. */
  lemma StartedChunkReleasesAll(c: Chunk)
    requires Coherent(c) && c.points == Live
    ensures var r := OnDestroy(c);
            r.Done? && r.chunk.pointsBuffer == Disposed && r.chunk.trianglesBuffer == Disposed
            && r.chunk.points == Disposed
  {
  }

  /** At edge 755 the cube fits an `int` but five times it does not: the
      triangle buffer throws after the points buffer was created and before
      the flag is set, so `OnDestroy` leaves the points buffer live. */
  lemma OversizedChunkLeaksPointsBuffer(pos: Vec3, amplitude: real, frequency: real, threshold: real)
    ensures var a := Allocate(Fresh(755, pos, amplitude, frequency, threshold));
            && a.Threw? && a.fault == InvalidBufferCount
            && a.chunk.pointsBuffer == Live && !a.chunk.isBufferInitialized
            && OnDestroy(a.chunk).chunk.pointsBuffer == Live
  {
    assert 755 * 755 * 755 == 430368875;
    assert Wrap32(430368875) == 430368875;
    assert Wrap32(430368875 * 5) < 0;
  }
}
