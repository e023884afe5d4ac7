/** The mesh buffers of the interpreters and the chunk packing of their
    `CreateSegment`: a segment template is copied behind the buffers of the
    current chunk, its vertices placed at the turtle and its indices
    shifted by the vertices already there, and a chunk is sealed first
    when it would grow beyond 65000 vertices. */
module Meshes {
  import opened Geometry
  import Arrays

  /** The four buffers of a `UnityEngine.Mesh`: vertices, normals, texture
      coordinates and the triangle index list. */
  datatype MeshData = MeshData(vertices: seq<Vector3>, normals: seq<Vector3>, uv: seq<UV>, triangles: seq<int>)

  /** `new Mesh()`. */
  const EmptyMesh := MeshData([], [], [], [])

  /** One normal and one texture coordinate per vertex. */
  predicate WellFormed(m: MeshData) {
    |m.normals| == |m.vertices| && |m.uv| == |m.vertices|
  }

  /** Every index names a vertex of the mesh. */
  predicate IndicesInRange(m: MeshData) {
    forall k :: 0 <= k < |m.triangles| ==> 0 <= m.triangles[k] < |m.vertices|
  }

  /** The most vertices `CreateSegment` lets a chunk reach by appending. */
  const VertexLimit := 65000

  /** The vertices after the transform of the loop that places them. */
  function Placed(vs: seq<Vector3>, place: Vector3 -> Vector3): (r: seq<Vector3>)
    ensures |r| == |vs| && forall k :: 0 <= k < |vs| ==> r[k] == place(vs[k])
  {
    seq(|vs|, k requires 0 <= k < |vs| => place(vs[k]))
  }

  /** The indices shifted by `offset`. */
  function Shifted(indices: seq<int>, offset: int): (r: seq<int>)
    ensures |r| == |indices| && forall k :: 0 <= k < |indices| ==> r[k] == indices[k] + offset
  {
    seq(|indices|, k requires 0 <= k < |indices| => indices[k] + offset)
  }

  /** The buffers of `current` followed by those of `template`, vertices
      placed and indices shifted past the vertices of `current`. */
  function Append(current: MeshData, template: MeshData, place: Vector3 -> Vector3): MeshData {
    MeshData(current.vertices + Placed(template.vertices, place),
             current.normals + template.normals,
             current.uv + template.uv,
             current.triangles + Shifted(template.triangles, |current.vertices|))
  }

  /** The loop of `CreateSegment` that writes the placed template
      vertices behind those already copied. */
  method PlaceInto(source: seq<Vector3>, destination: array<Vector3>, at: nat, place: Vector3 -> Vector3)
    requires at + |source| <= destination.Length
    modifies destination
    ensures destination[..] == old(destination[..at]) + Placed(source, place) + old(destination[at + |source|..])
  {
    var i := 0;
    while i < |source|
      invariant 0 <= i <= |source|
      invariant destination[..] == old(destination[..at]) + Placed(source, place)[..i] + old(destination[at + i..])
    {
      destination[at + i] := place(source[i]);
      assert Placed(source, place)[..i + 1] == Placed(source, place)[..i] + [place(source[i])];
      i := i + 1;
    }
  }

  /** The loop of `CreateSegment` that writes the shifted template indices
      behind those already copied. */
  method ShiftInto(source: seq<int>, destination: array<int>, at: nat, offset: int)
    requires at + |source| <= destination.Length
    modifies destination
    ensures destination[..] == old(destination[..at]) + Shifted(source, offset) + old(destination[at + |source|..])
  {
    var i := 0;
    while i < |source|
      invariant 0 <= i <= |source|
      invariant destination[..] == old(destination[..at]) + Shifted(source, offset)[..i] + old(destination[at + i..])
    {
      destination[at + i] := offset + source[i];
      assert Shifted(source, offset)[..i + 1] == Shifted(source, offset)[..i] + [source[i] + offset];
      i := i + 1;
    }
  }

  /** A fresh array of `|a| + |b|` elements holding `a` and then `b`, by
      two `Array.Copy` calls. */
  method Joined<T>(a: seq<T>, b: seq<T>, default: T) returns (r: seq<T>)
    ensures r == a + b
  {
    var arr := new T[|a| + |b|](_ => default);
    Arrays.Copy(a, arr, 0);
    Arrays.Copy(b, arr, |a|);
    r := arr[..];
  }

  /** The vertex buffer of the appended chunk. */
  method JoinedVertices(current: seq<Vector3>, template: seq<Vector3>, place: Vector3 -> Vector3, zero: Vector3)
    returns (r: seq<Vector3>)
    ensures r == current + Placed(template, place)
  {
    var arr := new Vector3[|current| + |template|](_ => zero);
    Arrays.Copy(current, arr, 0);
    PlaceInto(template, arr, |current|, place);
    r := arr[..];
  }

  /** The index buffer of the appended chunk. */
  method JoinedIndices(current: seq<int>, template: seq<int>, offset: int) returns (r: seq<int>)
    ensures r == current + Shifted(template, offset)
  {
    var arr := new int[|current| + |template|](_ => 0);
    Arrays.Copy(current, arr, 0);
    ShiftInto(template, arr, |current|, offset);
    r := arr[..];
  }

  /** The copy and transform steps of `CreateSegment` (its lines after the
      chunk test), on fresh arrays as the C# code allocates them. `zero` is
      `default(Vector3)`, the value the arrays are created with. */
  method AppendSegment(current: MeshData, template: MeshData, place: Vector3 -> Vector3, zero: Vector3)
    returns (r: MeshData)
    requires WellFormed(current) && WellFormed(template)
    ensures r == Append(current, template, place)
  {
    var vertices := JoinedVertices(current.vertices, template.vertices, place, zero);
    var normals := Joined(current.normals, template.normals, zero);
    var indices := JoinedIndices(current.triangles, template.triangles, |current.vertices|);
    var uvs := Joined(current.uv, template.uv, ZeroUV);
    r := MeshData(vertices, normals, uvs, indices);
  }

  /** Appending keeps the buffers well formed and every index in range. */
  lemma AppendInRange(current: MeshData, template: MeshData, place: Vector3 -> Vector3)
    requires WellFormed(current) && WellFormed(template)
    requires IndicesInRange(current) && IndicesInRange(template)
    ensures WellFormed(Append(current, template, place))
    ensures IndicesInRange(Append(current, template, place))
    ensures |Append(current, template, place).vertices| == |current.vertices| + |template.vertices|
  {
    var r := Append(current, template, place);
    forall k | 0 <= k < |r.triangles|
      ensures 0 <= r.triangles[k] < |r.vertices|
    {
      if k >= |current.triangles| {
        assert r.triangles[k] == template.triangles[k - |current.triangles|] + |current.vertices|;
      }
    }
  }

  /** The chunks sealed so far, in order, and the chunk being filled. */
  datatype Packing = Packing(sealedChunks: seq<MeshData>, current: MeshData)

  const Unpacked := Packing([], EmptyMesh)

  /** The chunk test of `CreateSegment`. */
  predicate Seals(p: Packing, template: MeshData) {
    |p.current.vertices| + |template.vertices| > VertexLimit
  }

  /** One segment: seal the current chunk when the template would take it
      past the limit, then append the template to the (new) current chunk. */
  function Place(p: Packing, template: MeshData, place: Vector3 -> Vector3): Packing {
    if Seals(p, template) then Packing(p.sealedChunks + [p.current], Append(EmptyMesh, template, place))
    else Packing(p.sealedChunks, Append(p.current, template, place))
  }

  /** The chunks after the loop: `CreateNewChunk` always seals the last one. */
  function Chunks(p: Packing): (r: seq<MeshData>)
    ensures |r| == |p.sealedChunks| + 1 && r[|r| - 1] == p.current
  {
    p.sealedChunks + [p.current]
  }

  /** Every chunk, sealed or current, has well-formed buffers, indices in
      range and at most `limit` vertices. */
  predicate PackingValid(p: Packing, limit: int) {
    && (forall k :: 0 <= k < |p.sealedChunks| ==>
          WellFormed(p.sealedChunks[k]) && IndicesInRange(p.sealedChunks[k]) && |p.sealedChunks[k].vertices| <= limit)
    && WellFormed(p.current) && IndicesInRange(p.current) && |p.current.vertices| <= limit
  }

  function VertexTotal(chunks: seq<MeshData>): nat {
    if chunks == [] then 0 else VertexTotal(chunks[..|chunks| - 1]) + |chunks[|chunks| - 1].vertices|
  }

  /** The vertices of all chunks, sealed or current. */
  function PackedVertices(p: Packing): nat {
    VertexTotal(Chunks(p))
  }

  /** Placing a template within the limit keeps every chunk within the
      limit, well formed and with its indices in range; the chunks sealed
      before stay as they were; no vertex is lost or invented; and a chunk
      is sealed only when the template does not fit in it. */
  lemma PlaceKeepsValid(p: Packing, template: MeshData, place: Vector3 -> Vector3)
    requires PackingValid(p, VertexLimit)
    requires WellFormed(template) && IndicesInRange(template) && |template.vertices| <= VertexLimit
    ensures PackingValid(Place(p, template, place), VertexLimit)
    ensures p.sealedChunks <= Place(p, template, place).sealedChunks
    ensures Place(p, template, place).sealedChunks == p.sealedChunks ||
      (Place(p, template, place).sealedChunks == p.sealedChunks + [p.current] &&
       |p.current.vertices| + |template.vertices| > VertexLimit)
    ensures PackedVertices(Place(p, template, place)) == PackedVertices(p) + |template.vertices|
  {
    var q := Place(p, template, place);
    AppendInRange(p.current, template, place);
    AppendInRange(EmptyMesh, template, place);
    if Seals(p, template) {
      assert Chunks(q)[..|Chunks(q)| - 1] == Chunks(p);
      assert Chunks(p)[..|Chunks(p)| - 1] == p.sealedChunks;
      assert VertexTotal([]) == 0;
    } else {
      assert Chunks(q)[..|Chunks(q)| - 1] == p.sealedChunks;
      assert Chunks(p)[..|Chunks(p)| - 1] == p.sealedChunks;
    }
  }

  /** The empty start is valid. */
  lemma UnpackedValid()
    ensures PackingValid(Unpacked, VertexLimit) && PackedVertices(Unpacked) == 0
  {
    assert Chunks(Unpacked) == [EmptyMesh];
    assert Chunks(Unpacked)[..0] == [];
  }
}
