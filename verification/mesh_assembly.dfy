/** The CPU side of a build: the triangles read back from the GPU become an
    unindexed triangle mesh, three fresh vertices per triangle and the
    identity index list. */
module MeshAssembly {
  import opened Vectors

  /** One triangle appended by the marching-cubes kernel. */
  datatype BuffTriangle = BuffTriangle(a: Vec3, b: Vec3, c: Vec3)

  /** The engine mesh after `Clear`, `SetVertices` and `SetIndices`. */
  datatype Mesh = Mesh(vertices: seq<Vec3>, indices: seq<int>)

  const EmptyMesh: Mesh := Mesh([], [])

  /** Reference definition: the corners of every triangle, in triangle order. */
  function Flatten(tris: seq<BuffTriangle>): (vs: seq<Vec3>)
    ensures |vs| == 3 * |tris|
  {
    if tris == [] then []
    else
      var t := tris[|tris| - 1];
      Flatten(tris[..|tris| - 1]) + [t.a, t.b, t.c]
  }

  /** `0, 1, ..., n - 1`. */
  function Iota(n: nat): seq<int> {
    seq(n, j => j)
  }

  /** Triangle `i` owns the vertex slots `3i`, `3i + 1` and `3i + 2`. */
  predicate CornersAt(vertices: seq<Vec3>, tris: seq<BuffTriangle>) {
    && |vertices| == 3 * |tris|
    && forall i :: 0 <= i < |tris| ==>
         vertices[3 * i] == tris[i].a && vertices[3 * i + 1] == tris[i].b && vertices[3 * i + 2] == tris[i].c
  }

  lemma {:induction false} FlattenCorners(tris: seq<BuffTriangle>)
    ensures CornersAt(Flatten(tris), tris)
    decreases |tris|
  {
    if tris != [] {
      var n := |tris| - 1;
      var front := tris[..n];
      FlattenCorners(front);
      var vs := Flatten(tris);
      assert vs == Flatten(front) + [tris[n].a, tris[n].b, tris[n].c];
      forall i | 0 <= i < |tris|
        ensures vs[3 * i] == tris[i].a && vs[3 * i + 1] == tris[i].b && vs[3 * i + 2] == tris[i].c
      {
        if i < n {
          assert tris[i] == front[i];
        }
      }
    }
  }

  /** The slot rule fixes the whole vertex array: it is the flattening. */
  lemma {:induction false} CornersDetermineVertices(vertices: seq<Vec3>, tris: seq<BuffTriangle>)
    requires CornersAt(vertices, tris)
    ensures vertices == Flatten(tris)
  {
    FlattenCorners(tris);
    var fs := Flatten(tris);
    forall j | 0 <= j < |vertices|
      ensures vertices[j] == fs[j]
    {
      var i, k := j / 3, j % 3;
      assert j == 3 * i + k && 0 <= i < |tris|;
      assert vertices[3 * i] == tris[i].a == fs[3 * i];
      assert vertices[3 * i + 1] == tris[i].b == fs[3 * i + 1];
      assert vertices[3 * i + 2] == tris[i].c == fs[3 * i + 2];
    }
  }

  /** One iteration of the parallel loop: writes the slots of triangle `i`
      and nothing else. */
  function FillTriangle(vertices: seq<Vec3>, indices: seq<int>, tris: seq<BuffTriangle>, i: int)
    : (r: (seq<Vec3>, seq<int>))
    requires 0 <= i < |tris| && |vertices| == |indices| == 3 * |tris|
    ensures |r.0| == |r.1| == |vertices|
    ensures forall j :: 0 <= j < |vertices| && j / 3 != i ==> r.0[j] == vertices[j] && r.1[j] == indices[j]
  {
    var index := i * 3;
    (vertices[index := tris[i].a][index + 1 := tris[i].b][index + 2 := tris[i].c],
     indices[index := index][index + 1 := index + 1][index + 2 := index + 2])
  }

  /** Iterations on different triangles commute, so the sequential loop below
      stands for any schedule of the parallel one. */
  lemma FillCommutes(vertices: seq<Vec3>, indices: seq<int>, tris: seq<BuffTriangle>, i: int, j: int)
    requires 0 <= i < |tris| && 0 <= j < |tris| && i != j
    requires |vertices| == |indices| == 3 * |tris|
    ensures var first := FillTriangle(vertices, indices, tris, i);
            var second := FillTriangle(vertices, indices, tris, j);
            FillTriangle(first.0, first.1, tris, j) == FillTriangle(second.0, second.1, tris, i)
  {
    var first := FillTriangle(vertices, indices, tris, i);
    var second := FillTriangle(vertices, indices, tris, j);
    var x := FillTriangle(first.0, first.1, tris, j);
    var y := FillTriangle(second.0, second.1, tris, i);
    forall k | 0 <= k < |vertices|
      ensures x.0[k] == y.0[k] && x.1[k] == y.1[k]
    {
    }
    assert x.0 == y.0 && x.1 == y.1;
  }

  /** Fills freshly allocated (zeroed) vertex and index arrays of `3 * |tris|`
      entries, one triangle per iteration. */
  method AssembleMesh(tris: seq<BuffTriangle>) returns (vertices: seq<Vec3>, indices: seq<int>)
    ensures |vertices| == |indices| == 3 * |tris|
    ensures CornersAt(vertices, tris)
    ensures forall j :: 0 <= j < |indices| ==> indices[j] == j
    ensures vertices == Flatten(tris) && indices == Iota(3 * |tris|)
  {
    vertices := seq(3 * |tris|, _ => Zero);
    indices := seq(3 * |tris|, _ => 0);
    var i := 0;
    while i < |tris|
      invariant 0 <= i <= |tris|
      invariant |vertices| == |indices| == 3 * |tris|
      invariant forall k :: 0 <= k < i ==>
                  vertices[3 * k] == tris[k].a && vertices[3 * k + 1] == tris[k].b && vertices[3 * k + 2] == tris[k].c
      invariant forall j :: 0 <= j < 3 * i ==> indices[j] == j
    {
      var filled := FillTriangle(vertices, indices, tris, i);
      vertices, indices := filled.0, filled.1;
      i := i + 1;
    }
    CornersDetermineVertices(vertices, tris);
  }

  /** The triangles the engine draws from a mesh with triangle topology: the
      index list read three at a time. */
  function Rendered(mesh: Mesh): seq<BuffTriangle>
    requires |mesh.indices| % 3 == 0
    requires forall j :: 0 <= j < |mesh.indices| ==> 0 <= mesh.indices[j] < |mesh.vertices|
  {
    seq(|mesh.indices| / 3, t requires 0 <= t < |mesh.indices| / 3 =>
      BuffTriangle(mesh.vertices[mesh.indices[3 * t]],
                   mesh.vertices[mesh.indices[3 * t + 1]],
                   mesh.vertices[mesh.indices[3 * t + 2]]))
  }

  /** Round trip: the assembled mesh draws exactly the read-back triangles, in
      order. */
  lemma {:induction false} RenderedAssembly(tris: seq<BuffTriangle>)
    ensures var m := Mesh(Flatten(tris), Iota(3 * |tris|));
            && |m.indices| % 3 == 0
            && (forall j :: 0 <= j < |m.indices| ==> 0 <= m.indices[j] < |m.vertices|)
            && Rendered(m) == tris
  {
    FlattenCorners(tris);
  }

  /** No vertex is shared: distinct index slots name distinct vertices. */
  lemma IotaInjective(n: nat, j: int, k: int)
    requires 0 <= j < n && 0 <= k < n && j != k
    ensures Iota(n)[j] != Iota(n)[k]
  {
  }
}
