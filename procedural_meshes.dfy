/** ProceduralMeshes.cs: the cylinder, the two planes and the sphere, as the
    buffers their loops fill through running counters. The float geometry
    of each sample point is a parameter; the integer structure (buffer
    sizes, which sample goes where, the index buffers, the seams and the
    exceptions) is modelled exactly. */
module ProceduralMeshes {
  import opened Runtime
  import opened Geometry
  import opened Buffers
  import opened Meshes
  import Arrays

  // ------------------------------------------------------------ index writes

  /** One write of a loop that fills a buffer slot by slot: a buffer
      holding `prefix` and the first `x` values of `row` then holds the
      first `x + 1`, when `v` is value `x`. */
  method PutSlot<T>(buffer: array<T>, j: nat, ghost prefix: seq<T>, ghost row: seq<T>, ghost x: nat, v: T)
    requires x < |row| && v == row[x]
    requires j < buffer.Length && buffer[..j] == prefix + row[..x]
    modifies buffer
    ensures buffer[..j + 1] == prefix + row[..x + 1]
    ensures buffer[j + 1..] == old(buffer[j + 1..])
  {
    buffer[j] := v;
    assert buffer[..j + 1] == old(buffer[..j]) + [v];
    assert row[..x + 1] == row[..x] + [v];
    AppendAssoc(prefix, row[..x], [v]);
  }

  /** The seam write that closes a ring: the last value of `row` is a copy
      of the ring's first slot, which is the ring's first value when the
      ring has more than one slot and otherwise whatever the slot held. */
  method PutSeam<T>(buffer: array<T>, save: nat, R: nat, ghost prefix: seq<T>, ghost row: seq<T>)
    requires |row| == R + 1 && |prefix| == save && save + R + 1 <= buffer.Length
    requires buffer[..save + R] == prefix + row[..R]
    requires row[R] == (if R > 0 then row[0] else buffer[save])
    modifies buffer
    ensures buffer[..save + R + 1] == prefix + row
    ensures buffer[save + R + 1..] == old(buffer[save + R + 1..])
  {
    if R > 0 {
      assert buffer[save] == buffer[..save + R][save] == (prefix + row[..R])[save] == row[0];
    }
    PutSlot(buffer, save + R, prefix, row, R, buffer[save]);
    assert row[..R + 1] == row;
  }

  /** The six consecutive index writes of one quad, from slot `k` on: a
      buffer holding `prefix` and the first `n` blocks of `blocks` then
      holds the first `n + 1`, when `quad` is block `n`. */
  method PutQuad(indices: array<int>, k: nat, ghost prefix: seq<int>, ghost blocks: nat -> seq<int>, ghost n: nat,
                 quad: seq<int>)
    requires |quad| == 6 && quad == blocks(n)
    requires k + 6 <= indices.Length && indices[..k] == prefix + Concat(n, blocks)
    modifies indices
    ensures indices[..k + 6] == prefix + Concat(n + 1, blocks)
  {
    indices[k] := quad[0];
    indices[k + 1] := quad[1];
    indices[k + 2] := quad[2];
    indices[k + 3] := quad[3];
    indices[k + 4] := quad[4];
    indices[k + 5] := quad[5];
    assert indices[..k + 6] == old(indices[..k]) + quad;
    AppendAssoc(prefix, Concat(n, blocks), quad);
  }

  /** The three consecutive index writes of one triangle, from slot `k` on. */
  method PutTriangle(indices: array<int>, k: nat, ghost prefix: seq<int>, triangle: seq<int>)
    requires |triangle| == 3 && k + 3 <= indices.Length && indices[..k] == prefix
    modifies indices
    ensures indices[..k + 3] == prefix + triangle
  {
    indices[k] := triangle[0];
    indices[k + 1] := triangle[1];
    indices[k + 2] := triangle[2];
  }

  // ---------------------------------------------------------------- cylinder

  /** The float geometry of a cylinder: the point of radial sample `r` on
      ring `a` (the slice center plus `radius` times the unit-circle point),
      and the normalised normal of radial sample `r`. */
  datatype CylinderSamples = CylinderSamples(point: (int, int) -> Vector3, normal: int -> Vector3)

  /** Ring `a` of the vertex buffer: the `R` samples and then the seam
      vertex, a copy of the ring's first slot (when `R` is 0 that slot
      was never written and holds `zero`, the default vector). */
  function CylinderRing(samples: CylinderSamples, zero: Vector3, R: nat): nat -> seq<Vector3> {
    (a: nat) => seq(R + 1, (r: int) => if r < R then samples.point(a, r) else if R > 0 then samples.point(a, 0) else zero)
  }

  function CylinderNormalRing(samples: CylinderSamples, zero: Vector3, R: nat): nat -> seq<Vector3> {
    (a: nat) => seq(R + 1, (r: int) => if r < R then samples.normal(r) else if R > 0 then samples.normal(0) else zero)
  }

  /** Ring `a` of the texture coordinates: `(r / R, a / (A - 1))`, and
      `u = 1` at the seam. */
  function CylinderUVRing(A: int, R: nat): nat -> seq<UV> {
    (a: nat) => seq(R + 1, (r: int) => UV(if r < R then Ratio(r, R) else Ratio(1, 1), Ratio(a, A - 1)))
  }

  /** The two triangles `(i0, i1, i2)` and `(i1, i3, i2)` of the quad at
      ring `a`, sample `r`. */
  function CylinderQuad(R: nat, a: nat, r: nat): seq<int> {
    var i0 := a * (R + 1) + r;
    var i2 := i0 + R + 1;
    [i0, i0 + 1, i2, i0 + 1, i2 + 1, i2]
  }

  function CylinderQuads(R: nat, a: nat): nat -> seq<int> {
    (r: nat) => CylinderQuad(R, a, r)
  }

  /** The quads between ring `a` and ring `a + 1`. */
  function CylinderBand(R: nat): nat -> seq<int> {
    (a: nat) => Concat(R, CylinderQuads(R, a))
  }

  /** `CreateCylinder(axisSamples, radialSamples, radius, height)` in C#'s
      unchecked 32-bit arithmetic. The arrays are created in the order of
      the code with the wrapped sizes `axisSamples * (radialSamples + 1)`,
      `3 * (2 * (axisSamples - 1) * radialSamples)` and `radialSamples + 1`,
      so a negative one is an `OverflowException`; with `radialSamples ==
      -1` the seam write `cs[radialSamples] = cs[0]` is out of range. A
      ring or index loop that has more slots to fill than its wrapped
      buffer holds runs off its end: `IndexOutOfRangeException`. That also
      happens with `axisSamples == int.MinValue`, where `axisSamples - 1`
      wraps to `int.MaxValue` and the index loop runs. Otherwise `A` rings
      of `R + 1` vertices and `A - 1` bands of `R` quads, or, with no ring,
      buffers that keep their default values. */
  function Cylinder(A: Int32, R: Int32, samples: CylinderSamples, zero: Vector3): Result<MeshData> {
    var numVertices := Wrap32(A * (R + 1));
    var numIndices := Wrap32(3 * (2 * (A - 1) * R));
    if numVertices < 0 || numIndices < 0 || Wrap32(R + 1) < 0 then Throw(Overflow)
    else if R + 1 == 0 then Throw(IndexOutOfRange)
    else if A >= 1 && (A * (R + 1) > Int32Max || 3 * (2 * (A - 1) * R) > Int32Max) then Throw(IndexOutOfRange)
    else if A == Int32Min && R > 0 then Throw(IndexOutOfRange)
    else if A <= 0 then
      Ok(MeshData(seq(numVertices, _ => zero), seq(numVertices, _ => zero), seq(numVertices, _ => ZeroUV),
                  seq(numIndices, _ => 0)))
    else Ok(CylinderMesh(A, R, samples, zero))
  }

  /** The buffers of a cylinder of `A >= 1` rings. */
  function CylinderMesh(A: nat, R: nat, samples: CylinderSamples, zero: Vector3): MeshData
    requires A >= 1
  {
    MeshData(Concat(A, CylinderRing(samples, zero, R)),
             Concat(A, CylinderNormalRing(samples, zero, R)),
             Concat(A, CylinderUVRing(A, R)),
             Concat(A - 1, CylinderBand(R)))
  }

  /** The loops that would run off the end of a wrapped buffer are not
      run: the exception they end in is returned before them (the arrays
      are local, so the slots written before it are lost with them). */
  method CreateCylinder(axisSamples: Int32, radialSamples: Int32, samples: CylinderSamples, zero: Vector3)
    returns (result: Result<MeshData>)
    ensures result == Cylinder(axisSamples, radialSamples, samples, zero)
  {
    var A, R := axisSamples, radialSamples;
    var numVertices := Wrap32(A * (R + 1));
    var numIndices := Wrap32(3 * (2 * (A - 1) * R));
    CylinderCases(A, R, samples, zero);
    var created := Arrays.Allocate(numVertices, zero);
    if created.Throw? { return Throw(Overflow); }
    var vertices := created.value;
    created := Arrays.Allocate(numVertices, zero);
    var normals := created.value;
    var createdUV := Arrays.Allocate(numVertices, ZeroUV);
    var uvs := createdUV.value;
    var createdIndices := Arrays.Allocate(numIndices, 0);
    if createdIndices.Throw? { return Throw(Overflow); }
    var indices := createdIndices.value;
    var createdCircle := Arrays.Allocate(Wrap32(R + 1), 0.0);
    if createdCircle.Throw? { return Throw(Overflow); }
    if createdCircle.value.Length == 0 { return Throw(IndexOutOfRange); }
    if A >= 1 && (A * (R + 1) > Int32Max || 3 * (2 * (A - 1) * R) > Int32Max) {
      // the ring loop or the index loop runs off the end of its wrapped buffer
      return Throw(IndexOutOfRange);
    }
    if A == Int32Min && R > 0 {
      // `a < axisSamples - 1` wraps to `a < int.MaxValue`: the index loop runs off the end
      return Throw(IndexOutOfRange);
    }
    if A <= 0 {
      // both loops are skipped: the buffers keep their default values
      var mesh := DefaultMesh(vertices, normals, uvs, indices, zero);
      return Ok(mesh);
    }
    result := FillCylinder(vertices, normals, uvs, indices, A, R, samples, zero);
  }

  /** The mesh of freshly allocated buffers that no loop wrote. */
  method DefaultMesh(vertices: array<Vector3>, normals: array<Vector3>, uvs: array<UV>, indices: array<int>,
                     zero: Vector3)
    returns (mesh: MeshData)
    requires normals.Length == vertices.Length && uvs.Length == vertices.Length
    requires forall k :: 0 <= k < vertices.Length ==> vertices[k] == zero
    requires forall k :: 0 <= k < normals.Length ==> normals[k] == zero
    requires forall k :: 0 <= k < uvs.Length ==> uvs[k] == ZeroUV
    requires forall k :: 0 <= k < indices.Length ==> indices[k] == 0
    ensures mesh == MeshData(seq(vertices.Length, _ => zero), seq(vertices.Length, _ => zero),
                             seq(vertices.Length, _ => ZeroUV), seq(indices.Length, _ => 0))
  {
    assert vertices[..] == seq(vertices.Length, _ => zero);
    assert normals[..] == seq(vertices.Length, _ => zero);
    assert uvs[..] == seq(vertices.Length, _ => ZeroUV);
    assert indices[..] == seq(indices.Length, _ => 0);
    return MeshData(vertices[..], normals[..], uvs[..], indices[..]);
  }

  /** The ring loop and the index loop of `CreateCylinder` on buffers of
      the exact sizes, with no wrap-around left to meet. */
  method FillCylinder(vertices: array<Vector3>, normals: array<Vector3>, uvs: array<UV>, indices: array<int>,
                      A: nat, R: nat, samples: CylinderSamples, zero: Vector3)
    returns (result: Result<MeshData>)
    requires vertices != normals && uvs as object != vertices && uvs as object != normals
    requires A >= 1 && vertices.Length == A * (R + 1) && normals.Length == A * (R + 1) && uvs.Length == A * (R + 1)
    requires indices as object != vertices && indices as object != normals && indices as object != uvs
    requires indices.Length == 3 * (2 * (A - 1) * R)
    requires forall k :: 0 <= k < vertices.Length ==> vertices[k] == zero
    requires forall k :: 0 <= k < normals.Length ==> normals[k] == zero
    modifies vertices, normals, uvs, indices
    ensures result == Ok(CylinderMesh(A, R, samples, zero))
  {
    CylinderRings(vertices, normals, uvs, A, R, samples, zero);
    ghost var rings := (vertices[..], normals[..], uvs[..]);
    CylinderIndices(indices, A, R);
    assert (vertices[..], normals[..], uvs[..]) == rings;
    var mesh := MeshData(vertices[..], normals[..], uvs[..], indices[..]);
    assert mesh == CylinderMesh(A, R, samples, zero);
    return Ok(mesh);
  }

  /** The branches of `Cylinder` in the order `CreateCylinder` takes them. */
  lemma CylinderCases(A: Int32, R: Int32, samples: CylinderSamples, zero: Vector3)
    ensures var c := Cylinder(A, R, samples, zero);
      var nv, ni := Wrap32(A * (R + 1)), Wrap32(3 * (2 * (A - 1) * R));
      && (nv < 0 || ni < 0 || Wrap32(R + 1) < 0 ==> c == Throw(Overflow))
      && (nv >= 0 && ni >= 0 && Wrap32(R + 1) >= 0 ==>
            && (R + 1 == 0 ==> c == Throw(IndexOutOfRange))
            && (R + 1 != 0 && A >= 1 && (A * (R + 1) > Int32Max || 3 * (2 * (A - 1) * R) > Int32Max) ==>
                  c == Throw(IndexOutOfRange))
            && (R + 1 != 0 && A == Int32Min && R > 0 ==> c == Throw(IndexOutOfRange))
            && (R + 1 != 0 && A <= 0 && !(A == Int32Min && R > 0) ==>
                  c == Ok(MeshData(seq(nv, _ => zero), seq(nv, _ => zero), seq(nv, _ => ZeroUV), seq(ni, _ => 0))))
            && (R + 1 != 0 && A >= 1 && A * (R + 1) <= Int32Max && 3 * (2 * (A - 1) * R) <= Int32Max ==>
                  && R >= 0 && nv == A * (R + 1) && ni == 3 * (2 * (A - 1) * R)
                  && c == Ok(CylinderMesh(A, R, samples, zero))))
  {
    MulSign(A, R + 1);
    MulSign(2 * (A - 1), R);
  }

  /** One ring of the ring loop of `CreateCylinder`, from slot `save` on:
      the `R` samples of ring `a`, then the seam copy of slot `save`. The
      slots after the ring keep what they held (`initial`). */
  method CylinderRingAt(vertices: array<Vector3>, normals: array<Vector3>, uvs: array<UV>, A: nat, R: nat, a: nat,
                        save: nat, samples: CylinderSamples, zero: Vector3,
                        ghost prefix: seq<Vector3>, ghost normalPrefix: seq<Vector3>, ghost uvPrefix: seq<UV>,
                        ghost initial: seq<Vector3>, ghost normalsInitial: seq<Vector3>)
    requires vertices != normals && uvs as object != vertices && uvs as object != normals
    requires save + R + 1 <= vertices.Length && save + R + 1 <= normals.Length && save + R + 1 <= uvs.Length
    requires vertices[..save] == prefix && normals[..save] == normalPrefix && uvs[..save] == uvPrefix
    requires |initial| == vertices.Length && vertices[save..] == initial[save..] && initial[save] == zero
    requires |normalsInitial| == normals.Length && normals[save..] == normalsInitial[save..] && normalsInitial[save] == zero
    modifies vertices, normals, uvs
    ensures vertices[..save + R + 1] == prefix + CylinderRing(samples, zero, R)(a)
    ensures normals[..save + R + 1] == normalPrefix + CylinderNormalRing(samples, zero, R)(a)
    ensures uvs[..save + R + 1] == uvPrefix + CylinderUVRing(A, R)(a)
    ensures vertices[save + R + 1..] == initial[save + R + 1..]
    ensures normals[save + R + 1..] == normalsInitial[save + R + 1..]
  {
    CylinderSamplesAt(vertices, normals, uvs, A, R, a, save, samples, zero, prefix, normalPrefix, uvPrefix,
                      initial, normalsInitial);
    CylinderSeamAt(vertices, normals, uvs, A, R, a, save, samples, zero, prefix, normalPrefix, uvPrefix,
                   initial, normalsInitial);
  }

  /** The sample loop of ring `a`: the `R` samples, from slot `save` on. */
  method CylinderSamplesAt(vertices: array<Vector3>, normals: array<Vector3>, uvs: array<UV>, A: nat, R: nat, a: nat,
                           save: nat, samples: CylinderSamples, zero: Vector3,
                           ghost prefix: seq<Vector3>, ghost normalPrefix: seq<Vector3>, ghost uvPrefix: seq<UV>,
                           ghost initial: seq<Vector3>, ghost normalsInitial: seq<Vector3>)
    requires vertices != normals && uvs as object != vertices && uvs as object != normals
    requires save + R <= vertices.Length && save + R <= normals.Length && save + R <= uvs.Length
    requires vertices[..save] == prefix && normals[..save] == normalPrefix && uvs[..save] == uvPrefix
    requires |initial| == vertices.Length && vertices[save..] == initial[save..]
    requires |normalsInitial| == normals.Length && normals[save..] == normalsInitial[save..]
    modifies vertices, normals, uvs
    ensures vertices[..save + R] == prefix + CylinderRing(samples, zero, R)(a)[..R]
    ensures normals[..save + R] == normalPrefix + CylinderNormalRing(samples, zero, R)(a)[..R]
    ensures uvs[..save + R] == uvPrefix + CylinderUVRing(A, R)(a)[..R]
    ensures vertices[save + R..] == initial[save + R..] && normals[save + R..] == normalsInitial[save + R..]
  {
    ghost var row, normalRow, uvRow :=
      CylinderRing(samples, zero, R)(a), CylinderNormalRing(samples, zero, R)(a), CylinderUVRing(A, R)(a);
    var i := save;
    var r := 0;
    while r < R
      invariant 0 <= r <= R && i == save + r
      invariant vertices[..i] == prefix + row[..r]
      invariant normals[..i] == normalPrefix + normalRow[..r]
      invariant uvs[..i] == uvPrefix + uvRow[..r]
      invariant vertices[i..] == initial[i..] && normals[i..] == normalsInitial[i..]
    {
      CylinderSampleAt(vertices, normals, uvs, A, R, a, r, i, samples, zero, prefix, normalPrefix, uvPrefix,
                       initial, normalsInitial);
      i := i + 1;
      r := r + 1;
    }
  }

  /** The seam slot that closes ring `a`: a copy of the ring's first slot,
      with `u = 1`. */
  method CylinderSeamAt(vertices: array<Vector3>, normals: array<Vector3>, uvs: array<UV>, A: nat, R: nat, a: nat,
                        save: nat, samples: CylinderSamples, zero: Vector3,
                        ghost prefix: seq<Vector3>, ghost normalPrefix: seq<Vector3>, ghost uvPrefix: seq<UV>,
                        ghost initial: seq<Vector3>, ghost normalsInitial: seq<Vector3>)
    requires vertices != normals && uvs as object != vertices && uvs as object != normals
    requires save + R + 1 <= vertices.Length && save + R + 1 <= normals.Length && save + R + 1 <= uvs.Length
    requires |prefix| == save && |normalPrefix| == save && |uvPrefix| == save
    requires vertices[..save + R] == prefix + CylinderRing(samples, zero, R)(a)[..R]
    requires normals[..save + R] == normalPrefix + CylinderNormalRing(samples, zero, R)(a)[..R]
    requires uvs[..save + R] == uvPrefix + CylinderUVRing(A, R)(a)[..R]
    requires |initial| == vertices.Length && vertices[save + R..] == initial[save + R..]
    requires |normalsInitial| == normals.Length && normals[save + R..] == normalsInitial[save + R..]
    requires R == 0 ==> initial[save] == zero && normalsInitial[save] == zero
    modifies vertices, normals, uvs
    ensures vertices[..save + R + 1] == prefix + CylinderRing(samples, zero, R)(a)
    ensures normals[..save + R + 1] == normalPrefix + CylinderNormalRing(samples, zero, R)(a)
    ensures uvs[..save + R + 1] == uvPrefix + CylinderUVRing(A, R)(a)
    ensures vertices[save + R + 1..] == initial[save + R + 1..]
    ensures normals[save + R + 1..] == normalsInitial[save + R + 1..]
  {
    var i := save + R;
    if R == 0 {
      assert vertices[save] == vertices[i..][0] && normals[save] == normals[i..][0];
    }
    ghost var before, normalsBefore := vertices[..], normals[..];
    PutSeam(vertices, save, R, prefix, CylinderRing(samples, zero, R)(a));
    PutSeam(normals, save, R, normalPrefix, CylinderNormalRing(samples, zero, R)(a));
    PutSlot(uvs, i, uvPrefix, CylinderUVRing(A, R)(a), R, UV(Ratio(1, 1), Ratio(a, A - 1)));
    SuffixFrom(before, initial, i, i + 1);
    SuffixFrom(normalsBefore, normalsInitial, i, i + 1);
    assert CylinderUVRing(A, R)(a)[..R + 1] == CylinderUVRing(A, R)(a);
  }

  /** Sample `r` of ring `a`, at slot `i`, in the three buffers. */
  method CylinderSampleAt(vertices: array<Vector3>, normals: array<Vector3>, uvs: array<UV>, A: nat, R: nat, a: nat,
                          r: nat, i: nat, samples: CylinderSamples, zero: Vector3,
                          ghost prefix: seq<Vector3>, ghost normalPrefix: seq<Vector3>, ghost uvPrefix: seq<UV>,
                          ghost initial: seq<Vector3>, ghost normalsInitial: seq<Vector3>)
    requires vertices != normals && uvs as object != vertices && uvs as object != normals
    requires r < R && i < vertices.Length && i < normals.Length && i < uvs.Length
    requires vertices[..i] == prefix + CylinderRing(samples, zero, R)(a)[..r]
    requires normals[..i] == normalPrefix + CylinderNormalRing(samples, zero, R)(a)[..r]
    requires uvs[..i] == uvPrefix + CylinderUVRing(A, R)(a)[..r]
    requires |initial| == vertices.Length && vertices[i..] == initial[i..]
    requires |normalsInitial| == normals.Length && normals[i..] == normalsInitial[i..]
    modifies vertices, normals, uvs
    ensures vertices[..i + 1] == prefix + CylinderRing(samples, zero, R)(a)[..r + 1]
    ensures normals[..i + 1] == normalPrefix + CylinderNormalRing(samples, zero, R)(a)[..r + 1]
    ensures uvs[..i + 1] == uvPrefix + CylinderUVRing(A, R)(a)[..r + 1]
    ensures vertices[i + 1..] == initial[i + 1..] && normals[i + 1..] == normalsInitial[i + 1..]
  {
    ghost var before, normalsBefore := vertices[..], normals[..];
    PutSlot(vertices, i, prefix, CylinderRing(samples, zero, R)(a), r, samples.point(a, r));
    PutSlot(normals, i, normalPrefix, CylinderNormalRing(samples, zero, R)(a), r, samples.normal(r));
    PutSlot(uvs, i, uvPrefix, CylinderUVRing(A, R)(a), r, UV(Ratio(r, R), Ratio(a, A - 1)));
    SuffixFrom(before, initial, i, i + 1);
    SuffixFrom(normalsBefore, normalsInitial, i, i + 1);
  }

  /** `(a + 1) * w == a * w + w`. */
  lemma NextMultiple(a: int, w: int)
    ensures (a + 1) * w == a * w + w
  {
  }

  /** Ring `a` of the ring loop, written after rings `0 .. a - 1`. */
  method CylinderRingStep(vertices: array<Vector3>, normals: array<Vector3>, uvs: array<UV>, A: nat, R: nat, a: nat,
                          i: nat, samples: CylinderSamples, zero: Vector3,
                          ghost initial: seq<Vector3>, ghost normalsInitial: seq<Vector3>)
    returns (next: nat)
    requires vertices != normals && uvs as object != vertices && uvs as object != normals
    requires a < A && i == a * (R + 1)
    requires vertices.Length == A * (R + 1) && normals.Length == A * (R + 1) && uvs.Length == A * (R + 1)
    requires vertices[..i] == Concat(a, CylinderRing(samples, zero, R))
    requires normals[..i] == Concat(a, CylinderNormalRing(samples, zero, R))
    requires uvs[..i] == Concat(a, CylinderUVRing(A, R))
    requires |initial| == vertices.Length && vertices[i..] == initial[i..]
    requires |normalsInitial| == normals.Length && normals[i..] == normalsInitial[i..]
    requires forall k :: 0 <= k < |initial| ==> initial[k] == zero
    requires forall k :: 0 <= k < |normalsInitial| ==> normalsInitial[k] == zero
    modifies vertices, normals, uvs
    ensures next == i + R + 1 && next == (a + 1) * (R + 1) && next <= vertices.Length
    ensures vertices[..next] == Concat(a + 1, CylinderRing(samples, zero, R))
    ensures normals[..next] == Concat(a + 1, CylinderNormalRing(samples, zero, R))
    ensures uvs[..next] == Concat(a + 1, CylinderUVRing(A, R))
    ensures vertices[next..] == initial[next..]
    ensures normals[next..] == normalsInitial[next..]
  {
    NextMultiple(a, R + 1);
    MulMono(a + 1, A, R + 1);
    ghost var prefix, normalPrefix, uvPrefix := vertices[..i], normals[..i], uvs[..i];
    CylinderRingAt(vertices, normals, uvs, A, R, a, i, samples, zero, prefix, normalPrefix, uvPrefix,
                   initial, normalsInitial);
    ConcatStep(a, CylinderRing(samples, zero, R), prefix, CylinderRing(samples, zero, R)(a));
    ConcatStep(a, CylinderNormalRing(samples, zero, R), normalPrefix, CylinderNormalRing(samples, zero, R)(a));
    ConcatStep(a, CylinderUVRing(A, R), uvPrefix, CylinderUVRing(A, R)(a));
    next := i + R + 1;
  }

  /** The ring loop of `CreateCylinder`. */
  method CylinderRings(vertices: array<Vector3>, normals: array<Vector3>, uvs: array<UV>, A: nat, R: nat,
                       samples: CylinderSamples, zero: Vector3)
    requires vertices != normals && uvs as object != vertices && uvs as object != normals
    requires vertices.Length == A * (R + 1) && normals.Length == A * (R + 1) && uvs.Length == A * (R + 1)
    requires forall k :: 0 <= k < vertices.Length ==> vertices[k] == zero
    requires forall k :: 0 <= k < normals.Length ==> normals[k] == zero
    modifies vertices, normals, uvs
    ensures vertices[..] == Concat(A, CylinderRing(samples, zero, R))
    ensures normals[..] == Concat(A, CylinderNormalRing(samples, zero, R))
    ensures uvs[..] == Concat(A, CylinderUVRing(A, R))
  {
    ghost var initial, normalsInitial := vertices[..], normals[..];
    var a := 0;
    var i: nat := 0;
    while a < A
      invariant 0 <= a <= A && i == a * (R + 1) && i <= vertices.Length
      invariant vertices[..i] == Concat(a, CylinderRing(samples, zero, R))
      invariant normals[..i] == Concat(a, CylinderNormalRing(samples, zero, R))
      invariant uvs[..i] == Concat(a, CylinderUVRing(A, R))
      invariant vertices[i..] == initial[i..] && normals[i..] == normalsInitial[i..]
    {
      i := CylinderRingStep(vertices, normals, uvs, A, R, a, i, samples, zero, initial, normalsInitial);
      a := a + 1;
    }
    assert vertices[..] == vertices[..i] && normals[..] == normals[..i] && uvs[..] == uvs[..i];
  }

  /** The quad at sample `r` from its first vertex `i0`. */
  lemma CylinderQuadIs(R: nat, a: nat, r: nat, i0: int)
    requires i0 == a * (R + 1) + r
    ensures CylinderQuads(R, a)(r) == [i0, i0 + 1, i0 + R + 1, i0 + 1, i0 + R + 2, i0 + R + 1]
  {
  }

  /** One band of the index loop of `CreateCylinder`: the quads between
      the ring starting at vertex `aStart` and the next, from slot `c` on. */
  method CylinderBandAt(indices: array<int>, R: nat, a: nat, aStart: int, c: nat, ghost prefix: seq<int>)
    requires aStart == a * (R + 1) && c + 6 * R <= indices.Length && indices[..c] == prefix
    modifies indices
    ensures indices[..c + 6 * R] == prefix + CylinderBand(R)(a)
  {
    var i0 := aStart;
    var i1 := i0 + 1;
    var i2 := aStart + R + 1;
    var i3 := i2 + 1;
    var k := c;
    var i := 0;
    while i < R
      invariant 0 <= i <= R && k == c + 6 * i
      invariant i0 == aStart + i && i1 == i0 + 1 && i2 == i0 + R + 1 && i3 == i2 + 1
      invariant k + 6 * (R - i) <= indices.Length
      invariant indices[..k] == prefix + Concat(i, CylinderQuads(R, a))
    {
      CylinderQuadIs(R, a, i, i0);
      PutQuad(indices, k, prefix, CylinderQuads(R, a), i, [i0, i1, i2, i1, i3, i2]);
      k := k + 6;
      i0, i1, i2, i3 := i0 + 1, i1 + 1, i2 + 1, i3 + 1;
      i := i + 1;
    }
  }

  /** The index loop of `CreateCylinder`. */
  method CylinderIndices(indices: array<int>, A: nat, R: nat)
    requires A >= 1 && indices.Length == 3 * (2 * (A - 1) * R)
    modifies indices
    ensures indices[..] == Concat(A - 1, CylinderBand(R))
  {
    ghost var w := 6 * R;
    assert indices.Length == (A - 1) * w;
    var c: nat := 0;
    var a := 0;
    var aStart := 0;
    while a < A - 1
      invariant 0 <= a <= A - 1 && aStart == a * (R + 1) && c == a * w && c <= indices.Length
      invariant indices[..c] == Concat(a, CylinderBand(R))
    {
      NextMultiple(a, R + 1);
      NextMultiple(a, w);
      MulMono(a + 1, A - 1, w);
      CylinderBandAt(indices, R, a, aStart, c, indices[..c]);
      aStart := aStart + R + 1;
      c := c + 6 * R;
      a := a + 1;
    }
    assert c == indices.Length;
    assert indices[..] == indices[..c];
  }

  /** When `CreateCylinder` succeeds with at least one ring: exactly when
      `radialSamples >= 0` and both buffer sizes fit in an `int`, and then
      it builds the cylinder. With no ring it hands back default-valued
      buffers. Where no size wraps, the outcome is the one of unbounded
      arithmetic: success exactly for `radialSamples >= 0` with at least
      one ring (or none at all and no radial samples), and the seam write
      fails exactly for `radialSamples == -1` with at most one ring. Two
      inputs whose index count wraps: to a negative size, and to a size
      smaller than the index loop needs. */
  lemma CylinderOutcome(A: Int32, R: Int32, samples: CylinderSamples, zero: Vector3)
    ensures A >= 1 && R >= 0 ==>
      (Cylinder(A, R, samples, zero).Ok? <==> A * (R + 1) <= Int32Max && 3 * (2 * (A - 1) * R) <= Int32Max)
    ensures A >= 1 && Cylinder(A, R, samples, zero).Ok? ==>
      R >= 0 && Cylinder(A, R, samples, zero).value == CylinderMesh(A, R, samples, zero)
    ensures A <= 0 && Cylinder(A, R, samples, zero).Ok? ==>
      var m := Cylinder(A, R, samples, zero).value;
      && WellFormed(m)
      && (forall k :: 0 <= k < |m.vertices| ==> m.vertices[k] == zero)
      && (forall k :: 0 <= k < |m.triangles| ==> m.triangles[k] == 0)
    ensures Cylinder(A, R, samples, zero).Throw? ==>
      Cylinder(A, R, samples, zero).exception in {Overflow, IndexOutOfRange}
    ensures Int32Min <= A * (R + 1) <= Int32Max && Int32Min <= 3 * (2 * (A - 1) * R) <= Int32Max &&
            Int32Min < A && R < Int32Max ==>
      && (Cylinder(A, R, samples, zero).Ok? <==> R >= 0 && (A >= 1 || (A == 0 && R == 0)))
      && (Cylinder(A, R, samples, zero) == Throw(IndexOutOfRange) <==> R == -1 && A <= 1)
    ensures Cylinder(65536, 65535, samples, zero) == Throw(Overflow)
    ensures Cylinder(2, 1000000000, samples, zero) == Throw(IndexOutOfRange)
  {
    MulSign(A, R + 1);
    MulSign(A - 1, R);
    assert Wrap32(3 * (2 * (65536 - 1) * 65535)) == -786426;
    assert Wrap32(3 * (2 * (2 - 1) * 1000000000)) == 1705032704;
  }

  /** The buffer sizes: `axisSamples * (radialSamples + 1)` vertices,
      normals and texture coordinates, `3 * 2 * (axisSamples - 1) *
      radialSamples` indices. */
  lemma CylinderCounts(A: nat, R: nat, samples: CylinderSamples, zero: Vector3)
    requires A >= 1
    ensures var m := CylinderMesh(A, R, samples, zero);
      && WellFormed(m)
      && |m.vertices| == A * (R + 1)
      && |m.triangles| == 3 * (2 * (A - 1) * R)
  {
    ConcatLength(A, CylinderRing(samples, zero, R), R + 1);
    ConcatLength(A, CylinderNormalRing(samples, zero, R), R + 1);
    ConcatLength(A, CylinderUVRing(A, R), R + 1);
    BandWidths(A, R);
    ConcatLength(A - 1, CylinderBand(R), 6 * R);
    SixTimes(A - 1, R);
  }

  lemma SixTimes(x: int, y: int)
    ensures 3 * (2 * x * y) == x * (6 * y)
  {
  }

  lemma BandWidths(A: nat, R: nat)
    requires A >= 1
    ensures Uniform(A - 1, CylinderBand(R), 6 * R)
  {
    forall a: nat | a < A - 1 ensures |CylinderBand(R)(a)| == 6 * R {
      ConcatLength(R, CylinderQuads(R, a), 6);
    }
  }

  /** Sample `r < R` of ring `a` sits at `a * (R + 1) + r`, with the
      normal of that sample and texture coordinates `(r / R, a / (A - 1))`. */
  lemma CylinderVertex(A: nat, R: nat, samples: CylinderSamples, zero: Vector3, a: nat, r: nat)
    requires a < A && r < R
    ensures var m, i := CylinderMesh(A, R, samples, zero), a * (R + 1) + r;
      && i < |m.vertices| && i < |m.normals| && i < |m.uv|
      && m.vertices[i] == samples.point(a, r)
      && m.normals[i] == samples.normal(r)
      && m.uv[i] == UV(Ratio(r, R), Ratio(a, A - 1))
  {
    ConcatIndex(A, CylinderRing(samples, zero, R), R + 1, a, r);
    ConcatIndex(A, CylinderNormalRing(samples, zero, R), R + 1, a, r);
    ConcatIndex(A, CylinderUVRing(A, R), R + 1, a, r);
  }

  /** The last slot of every ring repeats the ring's first vertex and
      normal, with `u = 1`. */
  lemma CylinderSeam(A: nat, R: nat, samples: CylinderSamples, zero: Vector3, a: nat)
    requires a < A && R > 0
    ensures var m := CylinderMesh(A, R, samples, zero);
      var last := a * (R + 1) + R;
      && last < |m.vertices| && last < |m.normals| && last < |m.uv|
      && m.vertices[last] == m.vertices[a * (R + 1)]
      && m.normals[last] == m.normals[a * (R + 1)]
      && m.uv[last] == UV(Ratio(1, 1), Ratio(a, A - 1))
  {
    CylinderVertex(A, R, samples, zero, a, 0);
    ConcatIndex(A, CylinderRing(samples, zero, R), R + 1, a, R);
    ConcatIndex(A, CylinderNormalRing(samples, zero, R), R + 1, a, R);
    ConcatIndex(A, CylinderUVRing(A, R), R + 1, a, R);
  }

  /** The six indices written for the quad at ring `a`, sample `r`:
      `(i0, i1, i2)` and `(i1, i3, i2)` with `i0 = a * (R + 1) + r`,
      `i1 = i0 + 1`, `i2 = i0 + R + 1`, `i3 = i2 + 1`. */
  lemma CylinderQuadAt(A: nat, R: nat, samples: CylinderSamples, zero: Vector3, a: nat, r: nat, k: nat)
    requires a < A - 1 && r < R && k < 6
    ensures var m := CylinderMesh(A, R, samples, zero);
      && a * (6 * R) + 6 * r + k < |m.triangles|
      && m.triangles[a * (6 * R) + 6 * r + k] == CylinderQuad(R, a, r)[k]
  {
    assert CylinderMesh(A, R, samples, zero).triangles == Concat(A - 1, CylinderBand(R));
    CylinderBandSlot(A, R, a, 6 * r + k);
    CylinderQuadSlot(R, a, r, k);
  }

  /** Slot `6r + k` of band `a` is corner `k` of quad `r`. */
  lemma CylinderQuadSlot(R: nat, a: nat, r: nat, k: nat)
    requires r < R && k < 6
    ensures 6 * r + k < |Concat(R, CylinderQuads(R, a))|
    ensures Concat(R, CylinderQuads(R, a))[6 * r + k] == CylinderQuad(R, a, r)[k]
  {
    CylinderQuadsUniform(R, a);
    ConcatIndex(R, CylinderQuads(R, a), 6, r, k);
    assert CylinderQuads(R, a)(r) == CylinderQuad(R, a, r);
  }

  /** Every quad of a band holds six indices. */
  lemma CylinderQuadsUniform(R: nat, a: nat)
    ensures Uniform(R, CylinderQuads(R, a), 6)
  {
    forall q | 0 <= q < R ensures |CylinderQuads(R, a)(q)| == 6 {
      assert CylinderQuads(R, a)(q) == CylinderQuad(R, a, q);
    }
  }

  /** Slot `j` of band `a` sits at `a * 6R + j` of the index buffer. */
  lemma CylinderBandSlot(A: nat, R: nat, a: nat, j: nat)
    requires a < A - 1 && j < 6 * R
    ensures a * (6 * R) + j < |Concat(A - 1, CylinderBand(R))| && j < |Concat(R, CylinderQuads(R, a))|
    ensures Concat(A - 1, CylinderBand(R))[a * (6 * R) + j] == Concat(R, CylinderQuads(R, a))[j]
  {
    BandWidths(A, R);
    ConcatIndex(A - 1, CylinderBand(R), 6 * R, a, j);
  }

  /** Every index of a cylinder names one of its vertices. */
  lemma CylinderIndicesInRange(A: nat, R: nat, samples: CylinderSamples, zero: Vector3)
    requires A >= 1
    ensures IndicesInRange(CylinderMesh(A, R, samples, zero))
  {
    CylinderCounts(A, R, samples, zero);
    var m := CylinderMesh(A, R, samples, zero);
    forall k | 0 <= k < |m.triangles|
      ensures 0 <= m.triangles[k] < |m.vertices|
    {
      ConcatMember(A - 1, CylinderBand(R), k);
      var a :| 0 <= a < A - 1 && m.triangles[k] in CylinderBand(R)(a);
      QuadsInRange(A, R, a, m.triangles[k]);
    }
  }

  lemma QuadsInRange(A: nat, R: nat, a: nat, x: int)
    requires a < A - 1 && x in CylinderBand(R)(a)
    ensures 0 <= x < A * (R + 1)
  {
    var band := CylinderBand(R)(a);
    var j :| 0 <= j < |band| && band[j] == x;
    ConcatMember(R, CylinderQuads(R, a), j);
    var r :| 0 <= r < R && x in CylinderQuad(R, a, r);
    CylinderQuadBounds(R, a, r, x);
    MulMono(a + 2, A, R + 1);
  }

  /** The indices of a quad lie in its two rings. */
  lemma CylinderQuadBounds(R: nat, a: nat, r: nat, x: int)
    requires r < R && x in CylinderQuad(R, a, r)
    ensures 0 <= x < (a + 2) * (R + 1)
  {
    MulMono(0, a, R + 1);
    NextMultiple(a, R + 1);
    NextMultiple(a + 1, R + 1);
  }

  // ------------------------------------------------------------------ planes

  /** How many values `0, 1, ..., n` a `for (k = 0; k <= n; k++)` loop
      visits. */
  function Upto(n: int): nat {
    if n >= 0 then n + 1 else 0
  }

  /** How many values `0, ..., n - 1` a `for (k = 0; k < n; k++)` loop
      visits. */
  function Below(n: int): nat {
    if n >= 0 then n else 0
  }

  /** Row `y` of a plane's vertex buffer: the point at column `x` for
      `x = 0 .. xSegments`. */
  function PlaneRow(point: (int, int) -> Vector3, xs: int): nat -> seq<Vector3> {
    (y: nat) => seq(Upto(xs), (x: int) => point(x, y))
  }

  function PlaneUpRow(up: Vector3, xs: int): nat -> seq<Vector3> {
    (y: nat) => seq(Upto(xs), (x: int) => up)
  }

  /** Row `y` of the texture coordinates: `(x / xSegments, y / ySegments)`. */
  function PlaneUVRow(xs: int, ys: int): nat -> seq<UV> {
    (y: nat) => seq(Upto(xs), (x: int) => UV(Ratio(x, xs), Ratio(y, ys)))
  }

  /** The two triangles `(i2, i1, i0)` and `(i2, i0, i3)` of the cell at
      column `x` between rows `b` and `b + 1`: `i1 = b * (xSegments + 1) + x`
      is below `i0 = i1 + xSegments + 1`, and `i2 = i1 + 1`, `i3 = i0 + 1`. */
  function PlaneCell(xs: int, b: nat, x: nat): seq<int> {
    var i1 := b * (xs + 1) + x;
    var i0 := i1 + xs + 1;
    [i1 + 1, i1, i0, i1 + 1, i0, i0 + 1]
  }

  function PlaneCells(xs: int, b: nat): nat -> seq<int> {
    (x: nat) => PlaneCell(xs, b, x)
  }

  /** The cells between rows `b` and `b + 1`. */
  function PlaneBand(xs: int): nat -> seq<int> {
    (b: nat) => Concat(Below(xs), PlaneCells(xs, b))
  }

  /** The row loop `for (y = 0; y <= ySegments; y++)` of the planes
      returns: with `ySegments == int.MaxValue` it only stops by running
      off the end of a buffer, which a row with no column (`xSegments <
      0`) never does, once the buffers are created. */
  predicate PlaneEnds(xs: Int32, ys: Int32) {
    !(xs < 0 && ys == Int32Max && Wrap32((xs + 1) * (ys + 1)) >= 0)
  }

  /** `CreateXYPlane` and `CreateXZPlane` (identical but for the axis the
      rows advance along, which only the sample points see), in C#'s
      unchecked 32-bit arithmetic: a negative wrapped buffer size is an
      `OverflowException`, and a loop with more slots to fill than its
      wrapped buffer holds runs off its end (`IndexOutOfRangeException`);
      the vertex buffers are created and filled before the index buffer is
      created. Otherwise rows `y = 0 .. ySegments` of columns `x = 0 ..
      xSegments`, every normal `up`, and two triangles per cell. With a
      negative segment count that passes the size checks the loops write
      nothing and the buffers keep their default values. */
  function Plane(xs: Int32, ys: Int32, point: (int, int) -> Vector3, up: Vector3, zero: Vector3): Result<MeshData>
    requires PlaneEnds(xs, ys)
  {
    var vq := Wrap32((xs + 1) * (ys + 1));
    var n := Wrap32((xs * ys * 2) * 3);
    if vq < 0 then Throw(Overflow)
    else if xs >= 0 && ys >= 0 && (xs + 1) * (ys + 1) > Int32Max then Throw(IndexOutOfRange)
    else if n < 0 then Throw(Overflow)
    else if xs >= 0 && ys >= 0 && (xs * ys * 2) * 3 > Int32Max then Throw(IndexOutOfRange)
    else if xs >= 0 && ys >= 0 then Ok(PlaneMesh(xs, ys, point, up))
    else Ok(MeshData(seq(vq, _ => zero), seq(vq, _ => zero), seq(vq, _ => ZeroUV), seq(n, _ => 0)))
  }

  function PlaneMesh(xs: nat, ys: nat, point: (int, int) -> Vector3, up: Vector3): MeshData {
    MeshData(Concat(ys + 1, PlaneRow(point, xs)),
             Concat(ys + 1, PlaneUpRow(up, xs)),
             Concat(ys + 1, PlaneUVRow(xs, ys)),
             Concat(ys, PlaneBand(xs)))
  }

  /** `CreateXYPlane(width, height, xSegments, ySegments, center)` and
      `CreateXZPlane(width, depth, xSegments, zSegments, center)`. `point(x,
      y)` is the position `hScan` holds when column `x` of row `y` is
      written, `up` is `Vector3.up` and `zero` is `default(Vector3)`. */
  method CreatePlane(xs: Int32, ys: Int32, point: (int, int) -> Vector3, up: Vector3, zero: Vector3)
    returns (result: Result<MeshData>)
    requires PlaneEnds(xs, ys)
    ensures result == Plane(xs, ys, point, up, zero)
  {
    var vertexQuantity := Wrap32((xs + 1) * (ys + 1));
    var created := Arrays.Allocate(vertexQuantity, zero);
    if created.Throw? { return Throw(Overflow); }
    var vertexBuffer := created.value;
    created := Arrays.Allocate(vertexQuantity, zero);
    var normalBuffer := created.value;
    var createdUV := Arrays.Allocate(vertexQuantity, ZeroUV);
    var uvBuffer := createdUV.value;
    if xs >= 0 && ys >= 0 && (xs + 1) * (ys + 1) > Int32Max {
      // the vertex loop runs off the end of the wrapped buffers
      return Throw(IndexOutOfRange);
    }
    MulSign(xs + 1, ys + 1);
    PlaneVertices(vertexBuffer, normalBuffer, uvBuffer, xs, ys, point, up, zero);
    var createdIndices := Arrays.Allocate(Wrap32((xs * ys * 2) * 3), 0);
    if createdIndices.Throw? { return Throw(Overflow); }
    var indexBuffer := createdIndices.value;
    if xs >= 0 && ys >= 0 && (xs * ys * 2) * 3 > Int32Max {
      // the index loop runs off the end of the wrapped buffer
      return Throw(IndexOutOfRange);
    }
    MulSign(xs, ys);
    PlaneIndices(indexBuffer, xs, ys);
    if xs >= 0 && ys >= 0 {
      return Ok(MeshData(vertexBuffer[..], normalBuffer[..], uvBuffer[..], indexBuffer[..]));
    }
    var mesh := DefaultMesh(vertexBuffer, normalBuffer, uvBuffer, indexBuffer, zero);
    return Ok(mesh);
  }

  /** One row of the vertex loop of the planes, from slot `i` on: the
      buffers holding rows `0 .. y - 1` then hold rows `0 .. y`. */
  method PlaneRowAt(vertices: array<Vector3>, normals: array<Vector3>, uvs: array<UV>, xs: int, ys: int, y: nat,
                    i: nat, point: (int, int) -> Vector3, up: Vector3)
    requires vertices != normals && uvs as object != vertices && uvs as object != normals
    requires i + Upto(xs) <= vertices.Length && i + Upto(xs) <= normals.Length && i + Upto(xs) <= uvs.Length
    requires vertices[..i] == Concat(y, PlaneRow(point, xs))
    requires normals[..i] == Concat(y, PlaneUpRow(up, xs))
    requires uvs[..i] == Concat(y, PlaneUVRow(xs, ys))
    modifies vertices, normals, uvs
    ensures vertices[..i + Upto(xs)] == Concat(y + 1, PlaneRow(point, xs))
    ensures normals[..i + Upto(xs)] == Concat(y + 1, PlaneUpRow(up, xs))
    ensures uvs[..i + Upto(xs)] == Concat(y + 1, PlaneUVRow(xs, ys))
    ensures xs < 0 ==> vertices[..] == old(vertices[..]) && normals[..] == old(normals[..]) && uvs[..] == old(uvs[..])
  {
    ghost var row, normalRow, uvRow := PlaneRow(point, xs)(y), PlaneUpRow(up, xs)(y), PlaneUVRow(xs, ys)(y);
    ghost var prefix, normalPrefix, uvPrefix := vertices[..i], normals[..i], uvs[..i];
    var j := i;
    var x := 0;
    while x <= xs
      invariant 0 <= x <= Upto(xs) && j == i + x
      invariant vertices[..j] == prefix + row[..x]
      invariant normals[..j] == normalPrefix + normalRow[..x]
      invariant uvs[..j] == uvPrefix + uvRow[..x]
      invariant xs < 0 ==> vertices[..] == old(vertices[..]) && normals[..] == old(normals[..]) && uvs[..] == old(uvs[..])
    {
      PutSlot(vertices, j, prefix, row, x, point(x, y));
      PutSlot(normals, j, normalPrefix, normalRow, x, up);
      PutSlot(uvs, j, uvPrefix, uvRow, x, UV(Ratio(x, xs), Ratio(y, ys)));
      j := j + 1;
      x := x + 1;
    }
    assert row[..x] == row && normalRow[..x] == normalRow && uvRow[..x] == uvRow;
  }

  /** The vertex buffers of a plane hold `ySegments + 1` rows. */
  lemma PlaneVertexQuantity(xs: int, ys: int)
    ensures xs >= 0 ==> (xs + 1) * (ys + 1) == (ys + 1) * Upto(xs)
  {
  }

  /** The vertex loop of the planes. */
  method PlaneVertices(vertices: array<Vector3>, normals: array<Vector3>, uvs: array<UV>, xs: int, ys: int,
                       point: (int, int) -> Vector3, up: Vector3, zero: Vector3)
    requires vertices != normals && uvs as object != vertices && uvs as object != normals
    requires xs >= 0 && ys >= 0 ==> vertices.Length == (xs + 1) * (ys + 1)
    requires normals.Length == vertices.Length && uvs.Length == vertices.Length
    modifies vertices, normals, uvs
    ensures xs >= 0 && ys >= 0 ==> vertices[..] == Concat(ys + 1, PlaneRow(point, xs))
    ensures xs >= 0 && ys >= 0 ==> normals[..] == Concat(ys + 1, PlaneUpRow(up, xs))
    ensures xs >= 0 && ys >= 0 ==> uvs[..] == Concat(ys + 1, PlaneUVRow(xs, ys))
    ensures !(xs >= 0 && ys >= 0) ==> vertices[..] == old(vertices[..]) && normals[..] == old(normals[..]) && uvs[..] == old(uvs[..])
  {
    PlaneVertexQuantity(xs, ys);
    var i: nat := 0;
    var y := 0;
    while y <= ys
      invariant 0 <= y <= Upto(ys) && i == y * Upto(xs) && i <= vertices.Length && (xs < 0 ==> i == 0)
      invariant vertices[..i] == Concat(y, PlaneRow(point, xs))
      invariant normals[..i] == Concat(y, PlaneUpRow(up, xs))
      invariant uvs[..i] == Concat(y, PlaneUVRow(xs, ys))
      invariant !(xs >= 0 && ys >= 0) ==>
        vertices[..] == old(vertices[..]) && normals[..] == old(normals[..]) && uvs[..] == old(uvs[..])
    {
      NextMultiple(y, Upto(xs));
      MulMono(y + 1, ys + 1, Upto(xs));
      PlaneRowAt(vertices, normals, uvs, xs, ys, y, i, point, up);
      i := i + Upto(xs);
      y := y + 1;
    }
    if xs >= 0 && ys >= 0 {
      assert vertices[..] == vertices[..i] && normals[..] == normals[..i] && uvs[..] == uvs[..i];
    }
  }

  /** The cell at column `x` from the two row starts. */
  lemma PlaneCellIs(xs: int, b: nat, x: nat, above: int, below: int)
    requires below == b * (xs + 1) && above == below + xs + 1
    ensures PlaneCells(xs, b)(x) == [below + x + 1, below + x, above + x, below + x + 1, above + x, above + x + 1]
  {
  }

  /** One band of the index loop of the planes, from slot `c` on (the two
      row starts `y * (xSegments + 1)` and `(y - 1) * (xSegments + 1)` the
      code recomputes for every cell are computed once per band). */
  method PlaneBandAt(indices: array<int>, xs: int, b: nat, c: nat, ghost prefix: seq<int>)
    requires c + 6 * Below(xs) <= indices.Length && indices[..c] == prefix
    modifies indices
    ensures indices[..c + 6 * Below(xs)] == prefix + PlaneBand(xs)(b)
    ensures xs < 0 ==> indices[..] == old(indices[..])
  {
    var below := b * (xs + 1);
    var above := (b + 1) * (xs + 1);
    NextMultiple(b, xs + 1);
    var k := c;
    var x := 0;
    while x < xs
      invariant 0 <= x <= Below(xs) && k == c + 6 * x && k + 6 * (Below(xs) - x) <= indices.Length
      invariant indices[..k] == prefix + Concat(x, PlaneCells(xs, b))
      invariant xs < 0 ==> indices[..] == old(indices[..])
    {
      var i0 := above + x;
      var i1 := below + x;
      var i2 := i1 + 1;
      var i3 := i0 + 1;
      PlaneCellIs(xs, b, x, above, below);
      PutQuad(indices, k, prefix, PlaneCells(xs, b), x, [i2, i1, i0, i2, i0, i3]);
      k := k + 6;
      x := x + 1;
    }
    assert PlaneBand(xs)(b) == Concat(x, PlaneCells(xs, b));
  }

  /** The index loop of the planes: rows `y = 1 .. ySegments`, band `y - 1`. */
  lemma PlaneIndexCount(xs: int, ys: int)
    ensures xs >= 0 ==> (xs * ys * 2) * 3 == ys * (6 * Below(xs))
  {
  }

  method PlaneIndices(indices: array<int>, xs: int, ys: int)
    requires xs >= 0 && ys >= 0 ==> indices.Length == (xs * ys * 2) * 3
    modifies indices
    ensures xs >= 0 && ys >= 0 ==> indices[..] == Concat(ys, PlaneBand(xs))
    ensures !(xs >= 0 && ys >= 0) ==> indices[..] == old(indices[..])
  {
    ghost var w := 6 * Below(xs);
    PlaneIndexCount(xs, ys);
    var c: nat := 0;
    var y := 1;
    while y <= ys
      invariant 1 <= y && (ys >= 1 ==> y <= ys + 1) && c == (y - 1) * w && c <= indices.Length
      invariant indices[..c] == Concat(y - 1, PlaneBand(xs))
      invariant xs < 0 || ys < 1 ==> indices[..] == old(indices[..])
    {
      NextMultiple(y - 1, w);
      MulMono(y, ys, w);
      PlaneBandAt(indices, xs, y - 1, c, indices[..c]);
      c := c + 6 * Below(xs);
      y := y + 1;
    }
    if xs >= 0 && ys >= 0 {
      assert c == indices.Length;
      assert indices[..] == indices[..c];
    }
  }

  /** A plane of `xSegments, ySegments >= 0` is built exactly when its
      vertex count and its index count fit in an `int`, and it is then
      the mesh of rows and cells; the only failures are the two array
      exceptions. Where no size wraps, a plane is built exactly when
      neither buffer size is negative. `CreateXYPlane(..., 65535, 65535,
      ...)`: the vertex count 65536 * 65536 wraps to 0 and the vertex loop
      runs off the empty buffers. */
  lemma PlaneOutcome(xs: Int32, ys: Int32, point: (int, int) -> Vector3, up: Vector3, zero: Vector3)
    requires PlaneEnds(xs, ys)
    ensures xs >= 0 && ys >= 0 ==>
      (Plane(xs, ys, point, up, zero).Ok? <==> (xs + 1) * (ys + 1) <= Int32Max && 6 * (xs * ys) <= Int32Max)
    ensures xs >= 0 && ys >= 0 && Plane(xs, ys, point, up, zero).Ok? ==>
      Plane(xs, ys, point, up, zero).value == PlaneMesh(xs, ys, point, up)
    ensures Plane(xs, ys, point, up, zero).Throw? ==>
      Plane(xs, ys, point, up, zero).exception in {Overflow, IndexOutOfRange}
    ensures Int32Min <= (xs + 1) * (ys + 1) <= Int32Max && Int32Min <= 6 * (xs * ys) <= Int32Max ==>
      && (Plane(xs, ys, point, up, zero).Ok? <==> (xs + 1) * (ys + 1) >= 0 && xs * ys >= 0)
      && (Plane(xs, ys, point, up, zero).Throw? ==> Plane(xs, ys, point, up, zero).exception == Overflow)
    ensures Plane(65535, 65535, point, up, zero) == Throw(IndexOutOfRange)
  {
    MulSign(xs + 1, ys + 1);
    MulSign(xs, ys);
    assert (xs * ys * 2) * 3 == 6 * (xs * ys);
    assert Wrap32((65535 + 1) * (65535 + 1)) == 0;
  }

  lemma PlaneBandWidths(xs: nat, ys: nat)
    ensures Uniform(ys, PlaneBand(xs), 6 * xs)
  {
    forall b: nat | b < ys ensures |PlaneBand(xs)(b)| == 6 * xs {
      ConcatLength(xs, PlaneCells(xs, b), 6);
    }
  }

  /** `(xSegments + 1) * (ySegments + 1)` vertices, each with a normal and
      texture coordinates, and `6 * xSegments * ySegments` indices. */
  lemma PlaneCounts(xs: nat, ys: nat, point: (int, int) -> Vector3, up: Vector3)
    ensures var m := PlaneMesh(xs, ys, point, up);
      && WellFormed(m)
      && |m.vertices| == (xs + 1) * (ys + 1)
      && |m.triangles| == 6 * xs * ys
  {
    ConcatLength(ys + 1, PlaneRow(point, xs), xs + 1);
    ConcatLength(ys + 1, PlaneUpRow(up, xs), xs + 1);
    ConcatLength(ys + 1, PlaneUVRow(xs, ys), xs + 1);
    PlaneBandWidths(xs, ys);
    ConcatLength(ys, PlaneBand(xs), 6 * xs);
    assert (ys + 1) * (xs + 1) == (xs + 1) * (ys + 1);
    assert ys * (6 * xs) == 6 * xs * ys;
  }

  /** Row-major order: the vertex at row `y`, column `x` is the sample
      point there, with texture coordinates `(x / xSegments, y /
      ySegments)`; every normal is `up`. */
  lemma PlaneVertex(xs: nat, ys: nat, point: (int, int) -> Vector3, up: Vector3, x: nat, y: nat)
    requires x <= xs && y <= ys
    ensures var m := PlaneMesh(xs, ys, point, up);
      && y * (xs + 1) + x < |m.vertices| && y * (xs + 1) + x < |m.normals| && y * (xs + 1) + x < |m.uv|
      && m.vertices[y * (xs + 1) + x] == point(x, y)
      && m.normals[y * (xs + 1) + x] == up
      && m.uv[y * (xs + 1) + x] == UV(Ratio(x, xs), Ratio(y, ys))
  {
    ConcatIndex(ys + 1, PlaneRow(point, xs), xs + 1, y, x);
    ConcatIndex(ys + 1, PlaneUpRow(up, xs), xs + 1, y, x);
    ConcatIndex(ys + 1, PlaneUVRow(xs, ys), xs + 1, y, x);
  }

  lemma PlaneNormalsUp(xs: nat, ys: nat, point: (int, int) -> Vector3, up: Vector3)
    ensures forall k :: 0 <= k < |PlaneMesh(xs, ys, point, up).normals| ==> PlaneMesh(xs, ys, point, up).normals[k] == up
  {
    var normals := PlaneMesh(xs, ys, point, up).normals;
    forall k | 0 <= k < |normals| ensures normals[k] == up {
      ConcatMember(ys + 1, PlaneUpRow(up, xs), k);
    }
  }

  /** The six indices of the cell at column `x` between rows `b` and
      `b + 1`. */
  lemma PlaneCellAt(xs: nat, ys: nat, point: (int, int) -> Vector3, up: Vector3, b: nat, x: nat, k: nat)
    requires b < ys && x < xs && k < 6
    ensures var m := PlaneMesh(xs, ys, point, up);
      && b * (6 * xs) + 6 * x + k < |m.triangles|
      && m.triangles[b * (6 * xs) + 6 * x + k] == PlaneCell(xs, b, x)[k]
  {
    PlaneBandWidths(xs, ys);
    ghost var w := 6 * xs;
    ghost var inner := 6 * x + k;
    assert inner < w;
    ConcatIndex(ys, PlaneBand(xs), w, b, inner);
    ConcatIndex(xs, PlaneCells(xs, b), 6, x, k);
    assert x * 6 + k == inner;
  }

  /** Every index of a plane names one of its vertices. */
  lemma PlaneIndicesInRange(xs: nat, ys: nat, point: (int, int) -> Vector3, up: Vector3)
    ensures IndicesInRange(PlaneMesh(xs, ys, point, up))
  {
    PlaneCounts(xs, ys, point, up);
    var m := PlaneMesh(xs, ys, point, up);
    forall k | 0 <= k < |m.triangles|
      ensures 0 <= m.triangles[k] < |m.vertices|
    {
      ConcatMember(ys, PlaneBand(xs), k);
      var b :| 0 <= b < ys && m.triangles[k] in PlaneBand(xs)(b);
      CellsInRange(xs, ys, b, m.triangles[k]);
    }
  }

  lemma CellsInRange(xs: nat, ys: nat, b: nat, v: int)
    requires b < ys && v in PlaneBand(xs)(b)
    ensures 0 <= v < (xs + 1) * (ys + 1)
  {
    var band := PlaneBand(xs)(b);
    var j :| 0 <= j < |band| && band[j] == v;
    ConcatMember(xs, PlaneCells(xs, b), j);
    var x :| 0 <= x < xs && v in PlaneCell(xs, b, x);
    CellBounds(xs, b, x, v);
    MulMono(b + 2, ys + 1, xs + 1);
    assert (ys + 1) * (xs + 1) == (xs + 1) * (ys + 1);
  }

  /** The indices of a cell lie in its two rows. */
  lemma CellBounds(xs: nat, b: nat, x: nat, v: int)
    requires x < xs && v in PlaneCell(xs, b, x)
    ensures 0 <= b * (xs + 1) <= v < (b + 2) * (xs + 1)
  {
    var below := b * (xs + 1);
    MulMono(0, b, xs + 1);
    NextMultiple(b, xs + 1);
    NextMultiple(b + 1, xs + 1);
    assert PlaneCell(xs, b, x) ==
      [below + x + 1, below + x, below + xs + 1 + x, below + x + 1, below + xs + 1 + x, below + xs + 2 + x];
  }

  // ------------------------------------------------------------------ sphere

  /** The buffers `CreateSphere` hands to the mesh: vertices, texture
      coordinates and the index buffer after the winding pass. */
  datatype SphereData = SphereData(vertices: seq<Vector3>, uv: seq<UV>, triangles: seq<int>)

  /** Ring `k` of the vertex buffer (`zIndex = k + 1`): the `R` samples and
      the seam copy of the ring's first slot (`zero` when `R` is 0). */
  function SphereRing(point: (int, int) -> Vector3, zero: Vector3, R: nat): nat -> seq<Vector3> {
    (k: nat) => seq(R + 1, (r: int) => if r < R then point(k + 1, r) else if R > 0 then point(k + 1, 0) else zero)
  }

  /** Ring `k` of the texture coordinates: `(r / R, zIndex / (Z - 1))`, the
      float expression `0.5 * (zFraction + 1)` of the code, and `u = 1` at
      the seam. */
  function SphereUVRing(Z: int, R: nat): nat -> seq<UV> {
    (k: nat) => seq(R + 1, (r: int) => UV(if r < R then Ratio(r, R) else Ratio(1, 1), Ratio(k + 1, Z - 1)))
  }

  /** The quad at band `iZ`, sample `j`: `(i0, i2, i1)` and `(i1, i2, i3)`
      before the winding pass. */
  function SphereQuad(R: nat, iZ: nat, j: nat): seq<int> {
    var i0 := iZ * (R + 1) + j;
    var i2 := i0 + R + 1;
    [i0, i2, i0 + 1, i0 + 1, i2, i2 + 1]
  }

  function SphereQuads(R: nat, iZ: nat): nat -> seq<int> {
    (j: nat) => SphereQuad(R, iZ, j)
  }

  function SphereBand(R: nat): nat -> seq<int> {
    (iZ: nat) => Concat(R, SphereQuads(R, iZ))
  }

  /** The fan around the south pole (vertex `vq - 2`) over the first ring. */
  function SouthFan(vq: int): nat -> seq<int> {
    (j: nat) => [j, j + 1, vq - 2]
  }

  /** The fan around the north pole (vertex `vq - 1`) over the ring that
      starts at `offset`. */
  function NorthFan(vq: int, offset: int): nat -> seq<int> {
    (j: nat) => [j + offset, vq - 1, j + 1 + offset]
  }

  /** The winding pass: the first and the third index of every triangle
      swapped. */
  function Rewound(s: seq<int>): (r: seq<int>)
    ensures |r| == |s|
    decreases |s|
  {
    if |s| < 3 then s else [s[2], s[1], s[0]] + Rewound(s[3..])
  }

  /** `(zSegments - 2) * (radialSegments + 1) + 2`. */
  function SphereVertexQuantity(Z: int, R: int): int {
    (Z - 2) * (R + 1) + 2
  }

  /** The index buffer before the winding pass: `bands` bands, then the
      fan around the south pole and the fan around the north pole, whose
      ring starts at `offset`. */
  function SphereIndices(bands: nat, R: nat, vq: int, offset: int): seq<int> {
    Concat(bands, SphereBand(R)) + Concat(R, SouthFan(vq)) + Concat(R, NorthFan(vq, offset))
  }

  /** The vertex buffer: the rings, then the south and the north pole. */
  function SphereVertices(Z: nat, R: nat, point: (int, int) -> Vector3, south: Vector3, north: Vector3,
                          zero: Vector3): seq<Vector3>
    requires Z >= 2
  {
    Concat(Z - 2, SphereRing(point, zero, R)) + [south, north]
  }

  /** The texture coordinates: the rings, then `(1/2, 1/2)` at the south
      pole and `(1/2, 1)` at the north pole. */
  function SphereUVs(Z: nat, R: nat): seq<UV>
    requires Z >= 2
  {
    Concat(Z - 2, SphereUVRing(Z, R)) + [UV(Ratio(1, 2), Ratio(1, 2)), UV(Ratio(1, 2), Ratio(1, 1))]
  }

  /** The index buffer after the winding pass. */
  function SphereTriangles(Z: nat, R: nat): seq<int>
    requires Z >= 2
  {
    Rewound(SphereIndices(Below(Z - 3), R, SphereVertexQuantity(Z, R), (Z - 3) * (R + 1)))
  }

  function SphereMesh(Z: nat, R: nat, point: (int, int) -> Vector3, south: Vector3, north: Vector3,
                      zero: Vector3): SphereData
    requires Z >= 2
  {
    SphereData(SphereVertices(Z, R, point, south, north, zero), SphereUVs(Z, R), SphereTriangles(Z, R))
  }

  /** `CreateSphere(radius, zSegments, radialSegments)` in C#'s unchecked
      32-bit arithmetic, in the order of the code: a negative wrapped array
      size is an `OverflowException`; then the seam write is out of range
      for `radialSegments == -1`. The ring loop `zIndex < zSegments - 1`
      runs off the end of the vertex buffer when `zSegments - 1` wraps
      (`zSegments == int.MinValue`) or when the vertex count does not fit
      in an `int`; without rings (`zSegments < 2`) the pole writes are out
      of range when the wrapped vertex count is below 2, and otherwise
      the message-less check of the slot count or the one of `zSegments`
      throws. Then the three message-less range checks; then with
      `zSegments == 2` the south fan writes into an empty index buffer.
      `point(zIndex, r)` is the float position of sample `r` on ring
      `zIndex`, `south` and `north` the poles. */
  function Sphere(Z: Int32, R: Int32, point: (int, int) -> Vector3, south: Vector3, north: Vector3,
                  zero: Vector3): Result<SphereData>
  {
    var vq := Wrap32(SphereVertexQuantity(Z, R));
    if vq < 0 || Wrap32(3 * (2 * (Z - 2) * R)) < 0 || Wrap32(R + 1) < 0 then Throw(Overflow)
    else if R + 1 == 0 then Throw(IndexOutOfRange)
    else if Z == Int32Min then Throw(IndexOutOfRange)
    else if Z >= 2 && SphereVertexQuantity(Z, R) > Int32Max then Throw(IndexOutOfRange)
    else if Z < 2 && vq < 2 then Throw(IndexOutOfRange)
    else if Z < 2 then Throw(Failed)
    else if R >= 32767 || vq >= 32768 || Z >= 32768 then Throw(Failed)
    else if Z == 2 && R > 0 then Throw(IndexOutOfRange)
    else Ok(SphereMesh(Z, R, point, south, north, zero))
  }

  /** The ring loops that would run off the end of the wrapped vertex
      buffer are not run: the exception they end in is returned before
      them (the arrays are local, so the slots written before it are lost
      with them). */
  method CreateSphere(zSegments: Int32, radialSegments: Int32, point: (int, int) -> Vector3, south: Vector3,
                      north: Vector3, zero: Vector3)
    returns (result: Result<SphereData>)
    ensures result == Sphere(zSegments, radialSegments, point, south, north, zero)
  {
    var Z, R := zSegments, radialSegments;
    var vertexQuantity := Wrap32((Z - 2) * (R + 1) + 2);
    var triangleQuantity := Wrap32(2 * (Z - 2) * R);
    var indexQuantity := Wrap32(3 * (triangleQuantity as int));
    WrapTimesThree(2 * (Z - 2) * R);
    SphereEarly(Z, R, point, south, north, zero);
    var created := Arrays.Allocate(vertexQuantity, zero);
    if created.Throw? { return Throw(Overflow); }
    var vertexBuffer := created.value;
    var createdUV := Arrays.Allocate(vertexQuantity, ZeroUV);
    var uvBuffer := createdUV.value;
    var createdIndices := Arrays.Allocate(indexQuantity, 0);
    if createdIndices.Throw? { return Throw(Overflow); }
    var indexBuffer := createdIndices.value;
    var createdCircle := Arrays.Allocate(Wrap32(R + 1), 0.0);
    if createdCircle.Throw? { return Throw(Overflow); }
    if createdCircle.value.Length == 0 { return Throw(IndexOutOfRange); }
    if Z == Int32Min || (Z >= 2 && (Z - 2) * (R + 1) + 2 > Int32Max) {
      // the ring loop runs off the end of the wrapped vertex buffer
      return Throw(IndexOutOfRange);
    }
    result := FillSphere(vertexBuffer, uvBuffer, indexBuffer, Z, R, point, south, north, zero);
  }

  /** The outcomes of `Sphere` decided before its loops run. */
  lemma SphereEarly(Z: Int32, R: Int32, point: (int, int) -> Vector3, south: Vector3, north: Vector3, zero: Vector3)
    ensures var sphere := Sphere(Z, R, point, south, north, zero);
      && (Wrap32(SphereVertexQuantity(Z, R)) < 0 ==> sphere == Throw(Overflow))
      && (Wrap32(3 * (2 * (Z - 2) * R)) < 0 ==> sphere == Throw(Overflow))
      && (Wrap32(R + 1) < 0 ==> sphere == Throw(Overflow))
      && (Wrap32(SphereVertexQuantity(Z, R)) >= 0 && Wrap32(3 * (2 * (Z - 2) * R)) >= 0 && Wrap32(R + 1) >= 0 ==>
            && (R + 1 == 0 ==> sphere == Throw(IndexOutOfRange))
            && (R + 1 != 0 && (Z == Int32Min || (Z >= 2 && SphereVertexQuantity(Z, R) > Int32Max)) ==>
                  sphere == Throw(IndexOutOfRange)))
  {
  }

  /** Wrapping a product after the last factor is wrapping it before. */
  lemma WrapTimesThree(x: int)
    ensures Wrap32(3 * Wrap32(x)) == Wrap32(3 * x)
  {
    var k := (x - Int32Min) / 0x1_0000_0000;
    assert Wrap32(x) == x - k * 0x1_0000_0000;
    assert 3 * Wrap32(x) == 3 * x - (3 * k) * 0x1_0000_0000;
    WrapShift(3 * x, 3 * k);
  }

  /** Wrapping ignores multiples of 2^32. */
  lemma WrapShift(x: int, k: int)
    ensures Wrap32(x - k * 0x1_0000_0000) == Wrap32(x)
  {
    var y := x - Int32Min;
    assert (y - k * 0x1_0000_0000) % 0x1_0000_0000 == y % 0x1_0000_0000 by {
      ModShift(y, k, 0x1_0000_0000);
    }
  }

  lemma ModShift(y: int, k: int, m: int)
    requires m > 0
    ensures (y - k * m) % m == y % m
  {
    var q, r := y / m, y % m;
    assert y - k * m == (q - k) * m + r;
    ModUnique(y - k * m, q - k, r, m);
  }

  /** Euclidean division leaves one remainder. */
  lemma ModUnique(a: int, d: int, r: int, m: int)
    requires m > 0 && 0 <= r < m && a == d * m + r
    ensures a % m == r
  {
    var q, s := a / m, a % m;
    assert (q - d) * m == r - s;
    if q - d >= 1 {
      MulMono(1, q - d, m);
    } else if q - d <= -1 {
      MulMono(q - d, -1, m);
    }
  }


  /** `CreateSphere` once its arrays exist and the rings fit: the
      geometry, then the checks and the connectivity. */
  method FillSphere(vertexBuffer: array<Vector3>, uvBuffer: array<UV>, indexBuffer: array<int>, Z: Int32, R: nat,
                    point: (int, int) -> Vector3, south: Vector3, north: Vector3, zero: Vector3)
    returns (result: Result<SphereData>)
    requires uvBuffer as object != vertexBuffer && indexBuffer as object != vertexBuffer
    requires R < Int32Max && Z > Int32Min
    requires vertexBuffer.Length == Wrap32(SphereVertexQuantity(Z, R)) && uvBuffer.Length == vertexBuffer.Length
    requires Z >= 2 ==> SphereVertexQuantity(Z, R) <= Int32Max
    requires indexBuffer.Length == Wrap32(3 * (2 * (Z - 2) * R))
    requires forall k :: 0 <= k < vertexBuffer.Length ==> vertexBuffer[k] == zero
    modifies vertexBuffer, uvBuffer, indexBuffer
    ensures result == Sphere(Z, R, point, south, north, zero)
  {
    SphereSmallCases(Z, R);
    var polesWritten, i := SphereGeometry(vertexBuffer, uvBuffer, Z, R, Below(Z - 2), point, south, north, zero);
    if !polesWritten {
      assert Z < 2 && vertexBuffer.Length < 2;
      SphereCases(Z, R, point, south, north, zero);
      return Throw(IndexOutOfRange);
    }
    result := ConnectSphere(vertexBuffer, uvBuffer, indexBuffer, Z, R, i, point, south, north, zero);
  }

  /** The rest of `CreateSphere` once the poles are written: the
      message-less check of the slot count `i`, the three range checks,
      the connectivity. */
  method ConnectSphere(vertexBuffer: array<Vector3>, uvBuffer: array<UV>, indexBuffer: array<int>, Z: Int32, R: nat,
                       i: nat, point: (int, int) -> Vector3, south: Vector3, north: Vector3, zero: Vector3)
    returns (result: Result<SphereData>)
    requires indexBuffer as object != vertexBuffer
    requires R < Int32Max && Z > Int32Min
    requires vertexBuffer.Length == Wrap32(SphereVertexQuantity(Z, R)) && 2 <= vertexBuffer.Length
    requires Z >= 2 ==> SphereVertexQuantity(Z, R) <= Int32Max
    requires indexBuffer.Length == Wrap32(3 * (2 * (Z - 2) * R))
    requires i == Below(Z - 2) * (R + 1) + 2
    requires Z >= 2 ==>
      && vertexBuffer[..] == Concat(Below(Z - 2), SphereRing(point, zero, R)) + [south, north]
      && uvBuffer[..] == Concat(Below(Z - 2), SphereUVRing(Z, R)) + [UV(Ratio(1, 2), Ratio(1, 2)), UV(Ratio(1, 2), Ratio(1, 1))]
    modifies indexBuffer
    ensures result == Sphere(Z, R, point, south, north, zero)
  {
    var vertexQuantity := vertexBuffer.Length;
    SphereCases(Z, R, point, south, north, zero);
    SphereSmallCases(Z, R);
    if i != vertexQuantity { return Throw(Failed); }
    if !(R < 32768 - 1 && R >= 0) { return Throw(Failed); }
    if !(vertexQuantity < 32768 && vertexQuantity >= 0) { return Throw(Failed); }
    if !(Z < 32768 && Z >= 0) { return Throw(Failed); }
    result := SphereConnectivity(vertexBuffer, uvBuffer, indexBuffer, Z, R, point, south, north, zero);
  }

  /** The index loops of `CreateSphere` once every range check has passed:
      the bands, then the two fans. */
  method SphereConnectivity(vertexBuffer: array<Vector3>, uvBuffer: array<UV>, indexBuffer: array<int>, Z: int, R: nat,
                            point: (int, int) -> Vector3, south: Vector3, north: Vector3, zero: Vector3)
    returns (result: Result<SphereData>)
    requires indexBuffer as object != vertexBuffer
    requires 2 <= Z < 32768 && R < 32767 && SphereVertexQuantity(Z, R) < 32768
    requires vertexBuffer.Length == SphereVertexQuantity(Z, R)
    requires indexBuffer.Length == Wrap32(3 * (2 * (Z - 2) * R))
    requires vertexBuffer[..] == Concat(Below(Z - 2), SphereRing(point, zero, R)) + [south, north]
    requires uvBuffer[..] == Concat(Below(Z - 2), SphereUVRing(Z, R)) + [UV(Ratio(1, 2), Ratio(1, 2)), UV(Ratio(1, 2), Ratio(1, 1))]
    modifies indexBuffer
    ensures Z == 2 && R > 0 ==> result == Throw(IndexOutOfRange)
    ensures !(Z == 2 && R > 0) ==> result == Ok(SphereMesh(Z, R, point, south, north, zero))
  {
    SphereIndicesFit(Z, R);
    SphereIndexCount(Z, R);
    var fansWritten := SphereTopology(indexBuffer, Z, R, vertexBuffer.Length);
    if !fansWritten { return Throw(IndexOutOfRange); }
    assert SphereData(vertexBuffer[..], uvBuffer[..], indexBuffer[..]) == SphereMesh(Z, R, point, south, north, zero);
    return Ok(SphereData(vertexBuffer[..], uvBuffer[..], indexBuffer[..]));
  }

  /** The geometry half of `CreateSphere`: the rings, then the two poles.
      It reports whether the pole writes were in range, and the slot
      count `i` after them. */
  method SphereGeometry(vertexBuffer: array<Vector3>, uvBuffer: array<UV>, Z: int, R: nat, rings: nat,
                        point: (int, int) -> Vector3, south: Vector3, north: Vector3, zero: Vector3)
    returns (polesWritten: bool, i: nat)
    requires uvBuffer as object != vertexBuffer && uvBuffer.Length == vertexBuffer.Length
    requires rings == Below(Z - 2)
    requires Z >= 2 ==> vertexBuffer.Length == rings * (R + 1) + 2
    requires forall k :: 0 <= k < vertexBuffer.Length ==> vertexBuffer[k] == zero
    modifies vertexBuffer, uvBuffer
    ensures polesWritten <==> rings * (R + 1) + 2 <= vertexBuffer.Length
    ensures polesWritten ==> i == rings * (R + 1) + 2
    ensures polesWritten && Z >= 2 ==>
      && vertexBuffer[..] == Concat(rings, SphereRing(point, zero, R)) + [south, north]
      && uvBuffer[..] == Concat(rings, SphereUVRing(Z, R)) + [UV(Ratio(1, 2), Ratio(1, 2)), UV(Ratio(1, 2), Ratio(1, 1))]
  {
    i := SphereRings(vertexBuffer, uvBuffer, Z, R, rings, point, zero);
    polesWritten, i := SpherePoles(vertexBuffer, uvBuffer, i, south, north,
                                   Concat(rings, SphereRing(point, zero, R)), Concat(rings, SphereUVRing(Z, R)));
    if polesWritten && Z >= 2 {
      assert vertexBuffer[..] == vertexBuffer[..i];
      assert uvBuffer[..] == uvBuffer[..i];
    }
  }

  /** The south pole, then the north pole, written from slot `i0` on; it
      reports whether both writes were in range. */
  method SpherePoles(vertices: array<Vector3>, uvs: array<UV>, i0: nat, south: Vector3, north: Vector3,
                     ghost prefix: seq<Vector3>, ghost uvPrefix: seq<UV>)
    returns (polesWritten: bool, i: nat)
    requires uvs as object != vertices && uvs.Length == vertices.Length && i0 <= vertices.Length
    requires vertices[..i0] == prefix && uvs[..i0] == uvPrefix
    modifies vertices, uvs
    ensures polesWritten <==> i0 + 2 <= vertices.Length
    ensures polesWritten ==>
      && i == i0 + 2
      && vertices[..i] == prefix + [south, north]
      && uvs[..i] == uvPrefix + [UV(Ratio(1, 2), Ratio(1, 2)), UV(Ratio(1, 2), Ratio(1, 1))]
  {
    var southUV, northUV := UV(Ratio(1, 2), Ratio(1, 2)), UV(Ratio(1, 2), Ratio(1, 1));
    i := i0;
    if i >= vertices.Length { return false, i; }
    PoleAt(vertices, uvs, i, south, southUV, prefix, uvPrefix);
    i := i + 1;
    if i >= vertices.Length { return false, i; }
    PoleAt(vertices, uvs, i, north, northUV, prefix + [south], uvPrefix + [southUV]);
    i := i + 1;
    AppendAssoc(prefix, [south], [north]);
    AppendAssoc(uvPrefix, [southUV], [northUV]);
    assert [south] + [north] == [south, north] && [southUV] + [northUV] == [southUV, northUV];
    return true, i;
  }

  /** A pole of `CreateSphere`, written at slot `i` after what is there. */
  method PoleAt(vertices: array<Vector3>, uvs: array<UV>, i: nat, vertex: Vector3, uv: UV,
                ghost prefix: seq<Vector3>, ghost uvPrefix: seq<UV>)
    requires uvs as object != vertices && i < vertices.Length && i < uvs.Length
    requires vertices[..i] == prefix && uvs[..i] == uvPrefix
    modifies vertices, uvs
    ensures vertices[..i + 1] == prefix + [vertex]
    ensures uvs[..i + 1] == uvPrefix + [uv]
  {
    vertices[i] := vertex;
    uvs[i] := uv;
  }

  /** The connectivity half of `CreateSphere`: the bands, the two fans and
      the winding pass, into a buffer of `6 * R` slots per band and `6 * R`
      for the fans (none when `Z` is 2). It reports whether the fan writes
      were in range; the south fan does not fit an empty index buffer, and
      a write out of range throws before anything else happens. */
  method SphereTopology(indexBuffer: array<int>, Z: int, R: nat, vertexQuantity: int) returns (fansWritten: bool)
    requires Z >= 2
    requires Z >= 3 ==> indexBuffer.Length == Below(Z - 3) * (6 * R) + 6 * R
    requires Z == 2 ==> indexBuffer.Length == 0
    modifies indexBuffer
    ensures fansWritten <==> !(Z == 2 && R > 0)
    ensures fansWritten ==>
      indexBuffer[..] == Rewound(SphereIndices(Below(Z - 3), R, vertexQuantity, (Z - 3) * (R + 1)))
  {
    var connectivityIndex := SphereBands(indexBuffer, Z, R, Below(Z - 3));
    if connectivityIndex + 3 * R > indexBuffer.Length {
      return false;
    }
    var offset := (Z - 3) * (R + 1);
    connectivityIndex := FanInto(indexBuffer, R, SouthFan(vertexQuantity), connectivityIndex,
                                 indexBuffer[..connectivityIndex]);
    connectivityIndex := FanInto(indexBuffer, R, NorthFan(vertexQuantity, offset), connectivityIndex,
                                 indexBuffer[..connectivityIndex]);
    // the check `indexBuffer.Length != 3 * triangleQuantity` never fires
    assert connectivityIndex == indexBuffer.Length;
    assert indexBuffer[..] == indexBuffer[..connectivityIndex];
    TrianglesWhole(Below(Z - 3), R);
    Rewind(indexBuffer);
    return true;
  }

  lemma TrianglesWhole(bands: nat, R: nat)
    ensures (bands * (6 * R) + 6 * R) % 3 == 0
  {
    assert bands * (6 * R) + 6 * R == 3 * (2 * bands * R + 2 * R);
  }

  /** Without rings (`zSegments` 0 or 1) the wrapped vertex count is
      never 2, the slot count after the poles; with rings and a vertex
      count that fits, the rings fill all but the two pole slots. */
  lemma SphereSmallCases(Z: Int32, R: nat)
    requires R < Int32Max
    ensures 0 <= Z < 2 ==> Wrap32(SphereVertexQuantity(Z, R)) != 2
    ensures Z >= 2 ==> Below(Z - 2) * (R + 1) == SphereVertexQuantity(Z, R) - 2
  {
    if Z == 1 {
      assert SphereVertexQuantity(Z, R) == 1 - R;
    }
  }

  /** The branches of `Sphere` once the arrays exist and the rings fit. */
  lemma SphereCases(Z: Int32, R: nat, point: (int, int) -> Vector3, south: Vector3, north: Vector3, zero: Vector3)
    requires R < Int32Max && Z > Int32Min
    requires Wrap32(SphereVertexQuantity(Z, R)) >= 0 && Wrap32(3 * (2 * (Z - 2) * R)) >= 0
    requires Z >= 2 ==> SphereVertexQuantity(Z, R) <= Int32Max
    ensures var vq := Wrap32(SphereVertexQuantity(Z, R));
      && (Z < 2 && vq < 2 ==> Sphere(Z, R, point, south, north, zero) == Throw(IndexOutOfRange))
      && (Z < 2 && vq >= 2 ==> Sphere(Z, R, point, south, north, zero) == Throw(Failed))
    ensures Z >= 2 && (R >= 32767 || SphereVertexQuantity(Z, R) >= 32768 || Z >= 32768) ==>
      Sphere(Z, R, point, south, north, zero) == Throw(Failed)
    ensures Z == 2 && R > 0 && R < 32767 ==> Sphere(Z, R, point, south, north, zero) == Throw(IndexOutOfRange)
    ensures Z >= 2 && R < 32767 && SphereVertexQuantity(Z, R) < 32768 && Z < 32768 && !(Z == 2 && R > 0) ==>
      Sphere(Z, R, point, south, north, zero) == Ok(SphereMesh(Z, R, point, south, north, zero))
  {
    MulSign(Z - 2, R + 1);
  }

  /** After the range checks the index count does not wrap. */
  lemma SphereIndicesFit(Z: int, R: nat)
    requires 2 <= Z && R < 32767 && SphereVertexQuantity(Z, R) < 32768
    ensures Wrap32(3 * (2 * (Z - 2) * R)) == 3 * (2 * (Z - 2) * R)
  {
    MulMono(R, R + 1, Z - 2);
    MulSign(Z - 2, R);
    assert 3 * (2 * (Z - 2) * R) == 6 * (R * (Z - 2));
  }

  /** `6 * R` index slots per band and `6 * R` for the fans. */
  lemma SphereIndexCount(Z: int, R: nat)
    requires Z >= 2
    ensures Z >= 3 ==> 3 * (2 * (Z - 2) * R) == Below(Z - 3) * (6 * R) + 6 * R
    ensures Z == 2 ==> 3 * (2 * (Z - 2) * R) == 0
  {
    if Z >= 3 {
      assert (Z - 3) * (6 * R) + 6 * R == (Z - 2) * (6 * R);
    }
  }

  /** Sample `r` of ring `k` (`zIndex == k + 1`), at slot `i`. */
  method SphereSampleAt(vertices: array<Vector3>, uvs: array<UV>, Z: int, R: nat, zIndex: int, r: nat, i: nat,
                        ghost k: nat, ghost prefix: seq<Vector3>, ghost uvPrefix: seq<UV>, ghost initial: seq<Vector3>,
                        point: (int, int) -> Vector3, zero: Vector3)
    requires uvs as object != vertices && zIndex == k + 1
    requires r < R && i < vertices.Length && i < uvs.Length
    requires vertices[..i] == prefix + SphereRing(point, zero, R)(k)[..r]
    requires uvs[..i] == uvPrefix + SphereUVRing(Z, R)(k)[..r]
    requires |initial| == vertices.Length && vertices[i..] == initial[i..]
    modifies vertices, uvs
    ensures vertices[..i + 1] == prefix + SphereRing(point, zero, R)(k)[..r + 1]
    ensures uvs[..i + 1] == uvPrefix + SphereUVRing(Z, R)(k)[..r + 1]
    ensures vertices[i + 1..] == initial[i + 1..]
  {
    ghost var before := vertices[..];
    PutSlot(vertices, i, prefix, SphereRing(point, zero, R)(k), r, point(zIndex, r));
    PutSlot(uvs, i, uvPrefix, SphereUVRing(Z, R)(k), r, UV(Ratio(r, R), Ratio(zIndex, Z - 1)));
    SuffixFrom(before, initial, i, i + 1);
  }

  /** The seam slot that closes ring `k`: a copy of the ring's first slot,
      with `u = 1`. */
  method SphereSeamAt(vertices: array<Vector3>, uvs: array<UV>, Z: int, R: nat, zIndex: int, save: nat,
                      ghost k: nat, ghost prefix: seq<Vector3>, ghost uvPrefix: seq<UV>, ghost initial: seq<Vector3>,
                      point: (int, int) -> Vector3, zero: Vector3)
    requires uvs as object != vertices && zIndex == k + 1
    requires save + R + 1 <= vertices.Length && save + R + 1 <= uvs.Length
    requires |prefix| == save && |uvPrefix| == save
    requires vertices[..save + R] == prefix + SphereRing(point, zero, R)(k)[..R]
    requires uvs[..save + R] == uvPrefix + SphereUVRing(Z, R)(k)[..R]
    requires |initial| == vertices.Length && vertices[save + R..] == initial[save + R..]
    requires R == 0 ==> initial[save] == zero
    modifies vertices, uvs
    ensures vertices[..save + R + 1] == prefix + SphereRing(point, zero, R)(k)
    ensures uvs[..save + R + 1] == uvPrefix + SphereUVRing(Z, R)(k)
    ensures vertices[save + R + 1..] == initial[save + R + 1..]
  {
    var i := save + R;
    if R == 0 {
      assert vertices[save] == vertices[i..][0];
    }
    ghost var before := vertices[..];
    PutSeam(vertices, save, R, prefix, SphereRing(point, zero, R)(k));
    PutSlot(uvs, i, uvPrefix, SphereUVRing(Z, R)(k), R, UV(Ratio(1, 1), Ratio(zIndex, Z - 1)));
    SuffixFrom(before, initial, i, i + 1);
    assert SphereUVRing(Z, R)(k)[..R + 1] == SphereUVRing(Z, R)(k);
  }

  /** One ring of the ring loop of `CreateSphere`, ring `k` (`zIndex ==
      k + 1`), written from slot `save` on after what is there; the slots
      after the ring keep what they held (`initial`). */
  method SphereRingAt(vertices: array<Vector3>, uvs: array<UV>, Z: int, R: nat, zIndex: int, save: nat,
                      ghost k: nat, ghost prefix: seq<Vector3>, ghost uvPrefix: seq<UV>, ghost initial: seq<Vector3>,
                      point: (int, int) -> Vector3, zero: Vector3)
    requires uvs as object != vertices && zIndex == k + 1
    requires save + R + 1 <= vertices.Length && save + R + 1 <= uvs.Length
    requires vertices[..save] == prefix && uvs[..save] == uvPrefix
    requires |initial| == vertices.Length && vertices[save..] == initial[save..] && initial[save] == zero
    modifies vertices, uvs
    ensures vertices[..save + R + 1] == prefix + SphereRing(point, zero, R)(k)
    ensures uvs[..save + R + 1] == uvPrefix + SphereUVRing(Z, R)(k)
    ensures vertices[save + R + 1..] == initial[save + R + 1..]
  {
    ghost var row, uvRow := SphereRing(point, zero, R)(k), SphereUVRing(Z, R)(k);
    var i := save;
    var radialIndex := 0;
    while radialIndex < R
      invariant 0 <= radialIndex <= R && i == save + radialIndex
      invariant vertices[..i] == prefix + row[..radialIndex]
      invariant uvs[..i] == uvPrefix + uvRow[..radialIndex]
      invariant vertices[i..] == initial[i..]
    {
      SphereSampleAt(vertices, uvs, Z, R, zIndex, radialIndex, i, k, prefix, uvPrefix, initial, point, zero);
      i := i + 1;
      radialIndex := radialIndex + 1;
    }
    SphereSeamAt(vertices, uvs, Z, R, zIndex, save, k, prefix, uvPrefix, initial, point, zero);
  }

  /** Ring `k` of the ring loop, written after rings `0 .. k - 1`; it
      returns the next free slot. */
  method SphereRingStep(vertices: array<Vector3>, uvs: array<UV>, Z: int, R: nat, rings: nat, zIndex: int, i: nat,
                        ghost k: nat, ghost initial: seq<Vector3>, point: (int, int) -> Vector3, zero: Vector3)
    returns (next: nat)
    requires uvs as object != vertices && zIndex == k + 1 && k < rings && i == k * (R + 1)
    requires uvs.Length == vertices.Length && rings * (R + 1) <= vertices.Length
    requires vertices[..i] == Concat(k, SphereRing(point, zero, R))
    requires uvs[..i] == Concat(k, SphereUVRing(Z, R))
    requires |initial| == vertices.Length && vertices[i..] == initial[i..]
    requires forall j :: 0 <= j < |initial| ==> initial[j] == zero
    modifies vertices, uvs
    ensures next == i + R + 1 && next == (k + 1) * (R + 1) && next <= vertices.Length
    ensures vertices[..next] == Concat(k + 1, SphereRing(point, zero, R))
    ensures uvs[..next] == Concat(k + 1, SphereUVRing(Z, R))
    ensures vertices[next..] == initial[next..]
  {
    NextMultiple(k, R + 1);
    MulMono(k + 1, rings, R + 1);
    ghost var prefix, uvPrefix := vertices[..i], uvs[..i];
    SphereRingAt(vertices, uvs, Z, R, zIndex, i, k, prefix, uvPrefix, initial, point, zero);
    ConcatStep(k, SphereRing(point, zero, R), prefix, SphereRing(point, zero, R)(k));
    ConcatStep(k, SphereUVRing(Z, R), uvPrefix, SphereUVRing(Z, R)(k));
    next := i + R + 1;
  }

  /** The ring loop of `CreateSphere`, `zIndex = 1 .. zSegments - 2`; it
      returns the next free slot. */
  method SphereRings(vertices: array<Vector3>, uvs: array<UV>, Z: int, R: nat, rings: nat,
                     point: (int, int) -> Vector3, zero: Vector3)
    returns (i: nat)
    requires uvs as object != vertices
    requires rings == Below(Z - 2) && uvs.Length == vertices.Length && rings * (R + 1) <= vertices.Length
    requires forall k :: 0 <= k < vertices.Length ==> vertices[k] == zero
    modifies vertices, uvs
    ensures i == rings * (R + 1)
    ensures vertices[..i] == Concat(rings, SphereRing(point, zero, R))
    ensures uvs[..i] == Concat(rings, SphereUVRing(Z, R))
  {
    ghost var initial := vertices[..];
    i := 0;
    var zIndex := 1;
    ghost var k: nat := 0;
    while zIndex < Z - 1
      invariant zIndex == k + 1 && k <= rings && i == k * (R + 1) && i <= vertices.Length
      invariant vertices[..i] == Concat(k, SphereRing(point, zero, R))
      invariant uvs[..i] == Concat(k, SphereUVRing(Z, R))
      invariant vertices[i..] == initial[i..]
    {
      i := SphereRingStep(vertices, uvs, Z, R, rings, zIndex, i, k, initial, point, zero);
      zIndex := zIndex + 1;
      k := k + 1;
    }
    assert k == rings;
  }

  /** The quad at sample `j` from its first vertex `i0`. */
  lemma SphereQuadIs(R: nat, iZ: nat, j: nat, i0: int)
    requires i0 == iZ * (R + 1) + j
    ensures SphereQuads(R, iZ)(j) == [i0, i0 + R + 1, i0 + 1, i0 + 1, i0 + R + 1, i0 + R + 2]
  {
  }

  /** One band of the connectivity loop of `CreateSphere`. */
  method SphereBandAt(indices: array<int>, R: nat, iZ: nat, iZStart: int, c: nat, ghost prefix: seq<int>)
    requires iZStart == iZ * (R + 1) && c + 6 * R <= indices.Length && indices[..c] == prefix
    modifies indices
    ensures indices[..c + 6 * R] == prefix + SphereBand(R)(iZ)
  {
    var i0 := iZStart;
    var i1 := i0 + 1;
    var i2 := iZStart + R + 1;
    var i3 := i2 + 1;
    var k := c;
    var j := 0;
    while j < R
      invariant 0 <= j <= R && k == c + 6 * j
      invariant i0 == iZStart + j && i1 == i0 + 1 && i2 == i0 + R + 1 && i3 == i2 + 1
      invariant k + 6 * (R - j) <= indices.Length
      invariant indices[..k] == prefix + Concat(j, SphereQuads(R, iZ))
    {
      SphereQuadIs(R, iZ, j, i0);
      PutQuad(indices, k, prefix, SphereQuads(R, iZ), j, [i0, i2, i1, i1, i2, i3]);
      k := k + 6;
      i0, i1, i2, i3 := i0 + 1, i1 + 1, i2 + 1, i3 + 1;
      j := j + 1;
    }
  }

  /** The band loop of `CreateSphere`, `iZ = 0 .. zSegments - 4`; it
      returns the next free slot. */
  method SphereBands(indices: array<int>, Z: int, R: nat, bands: nat) returns (c: nat)
    requires bands == Below(Z - 3) && bands * (6 * R) <= indices.Length
    modifies indices
    ensures c == bands * (6 * R)
    ensures indices[..c] == Concat(bands, SphereBand(R))
  {
    c := 0;
    var iZStart := 0;
    var iZ := 0;
    while iZ < Z - 3
      invariant 0 <= iZ <= bands && iZStart == iZ * (R + 1) && c == iZ * (6 * R)
      invariant indices[..c] == Concat(iZ, SphereBand(R))
    {
      NextMultiple(iZ, R + 1);
      NextMultiple(iZ, 6 * R);
      MulMono(iZ + 1, bands, 6 * R);
      SphereBandAt(indices, R, iZ, iZStart, c, indices[..c]);
      iZStart := iZStart + R + 1;
      c := c + 6 * R;
      iZ := iZ + 1;
    }
  }

  /** A fan loop of `CreateSphere`: triangle `j` of the fan for `j = 0 ..
      R - 1`, from slot `c` on; it returns the next free slot. */
  method FanInto(indices: array<int>, R: nat, fan: nat -> seq<int>, c: nat, ghost prefix: seq<int>)
    returns (next: nat)
    requires c + 3 * R <= indices.Length && indices[..c] == prefix
    requires forall j: nat :: j < R ==> |fan(j)| == 3
    modifies indices
    ensures next == c + 3 * R
    ensures indices[..next] == prefix + Concat(R, fan)
  {
    next := c;
    var j := 0;
    while j < R
      invariant 0 <= j <= R && next == c + 3 * j
      invariant indices[..next] == prefix + Concat(j, fan)
    {
      var triangle := fan(j);
      PutTriangle(indices, next, indices[..next], triangle);
      assert Concat(j + 1, fan) == Concat(j, fan) + triangle;
      next := next + 3;
      j := j + 1;
    }
  }

  /** The winding pass of `CreateSphere`, over a buffer of whole
      triangles. */
  method Rewind(indices: array<int>)
    requires indices.Length % 3 == 0
    modifies indices
    ensures indices[..] == Rewound(old(indices[..]))
  {
    ghost var original := indices[..];
    ghost var n := indices.Length / 3;
    var j := 0;
    ghost var t := 0;
    while j < indices.Length
      invariant 0 <= t <= n && j == 3 * t && indices.Length == 3 * n
      invariant indices[..] == Rewound(original[..j]) + original[j..]
    {
      RewindAt(indices, j, t, original);
      j, t := j + 3, t + 1;
    }
    assert original[..j] == original;
    assert Rewound(original) + original[j..] == Rewound(original);
  }

  /** The winding pass over triangle `t`, at slot `j`. */
  method RewindAt(indices: array<int>, j: nat, ghost t: nat, ghost original: seq<int>)
    requires j == 3 * t && j + 3 <= |original|
    requires indices[..] == Rewound(original[..j]) + original[j..]
    modifies indices
    ensures indices[..] == Rewound(original[..j + 3]) + original[j + 3..]
  {
    SwapEnds(indices, j, Rewound(original[..j]), original);
    RewoundStep(original, t);
  }

  /** The swap of the first and the third index of the triangle at slot
      `j`. */
  method SwapEnds(indices: array<int>, j: nat, ghost done: seq<int>, ghost s: seq<int>)
    requires |done| == j && j + 3 <= |s| && indices[..] == done + s[j..]
    modifies indices
    ensures indices[..] == done + [s[j + 2], s[j + 1], s[j]] + s[j + 3..]
  {
    var a := indices[j];
    var c := indices[j + 2];
    indices[j] := c;
    indices[j + 2] := a;
  }

  /** The winding pass over one more triangle, triangle `t`. */
  lemma RewoundStep(s: seq<int>, t: nat)
    requires 3 * t + 3 <= |s|
    ensures var j := 3 * t; Rewound(s[..j + 3]) == Rewound(s[..j]) + [s[j + 2], s[j + 1], s[j]]
  {
    var j := 3 * t;
    RewoundAppend(s[..j], s[j..j + 3]);
    assert s[..j + 3] == s[..j] + s[j..j + 3];
    assert s[j..j + 3][3..] == [];
  }

  /** Rewinding goes triangle by triangle. */
  lemma {:induction false} RewoundAppend(a: seq<int>, b: seq<int>)
    requires |a| % 3 == 0
    ensures Rewound(a + b) == Rewound(a) + Rewound(b)
    decreases |a|
  {
    if |a| >= 3 {
      assert (a + b)[3..] == a[3..] + b;
      RewoundAppend(a[3..], b);
    } else {
      assert a == [];
      assert a + b == b;
    }
  }

  /** Rewinding swaps the first and the third index of every triangle and
      keeps the middle one. */
  lemma {:induction false} RewoundAt(s: seq<int>, t: nat, m: nat)
    requires |s| % 3 == 0 && 3 * t + m < |s| && m < 3
    ensures Rewound(s)[3 * t + m] == s[3 * t + 2 - m]
    decreases |s|
  {
    assert Rewound(s) == [s[2], s[1], s[0]] + Rewound(s[3..]);
    if t > 0 {
      RewoundAt(s[3..], t - 1, m);
      assert 3 * t + m == 3 + (3 * (t - 1) + m);
      assert s[3..][3 * (t - 1) + 2 - m] == s[3 * t + 2 - m];
    }
  }

  /** Rewinding twice gives the buffer back. */
  lemma {:induction false} RewoundTwice(s: seq<int>)
    requires |s| % 3 == 0
    ensures Rewound(Rewound(s)) == s
    decreases |s|
  {
    if |s| >= 3 {
      RewoundTwice(s[3..]);
      assert Rewound(s)[3..] == Rewound(s[3..]);
      assert s == s[..3] + s[3..];
    }
  }

  /** Rewinding reorders the buffer: the same indices, as often. */
  lemma {:induction false} RewoundPermutes(s: seq<int>)
    ensures multiset(Rewound(s)) == multiset(s)
    decreases |s|
  {
    if |s| >= 3 {
      RewoundPermutes(s[3..]);
      assert s == [s[0], s[1], s[2]] + s[3..];
    }
  }

  /** When `CreateSphere` succeeds: `0 <= radialSegments < 32767`, at
      least two z segments, fewer than 32768 vertices, and no radial
      segments when there are only two z segments. Where no size wraps,
      it fails with one of the message-less exceptions exactly when the
      sizes are sound but a range check rejects them; a vertex count past
      `int.MaxValue` ends in an array exception instead. Two inputs whose
      sizes wrap: a vertex count that wraps to a negative size, and one
      that wraps to 4 with no ring, which the check of the slot count
      rejects. */
  lemma SphereOutcome(Z: Int32, R: Int32, point: (int, int) -> Vector3, south: Vector3, north: Vector3, zero: Vector3)
    ensures var r := Sphere(Z, R, point, south, north, zero);
      && (r.Ok? <==> 0 <= R < 32767 && Z >= 2 && SphereVertexQuantity(Z, R) < 32768 && (Z == 2 ==> R == 0))
      && (r.Throw? ==> r.exception in {Overflow, IndexOutOfRange, Failed})
    ensures Int32Min <= SphereVertexQuantity(Z, R) <= Int32Max && Int32Min <= 3 * (2 * (Z - 2) * R) <= Int32Max &&
            Int32Min < Z && R < Int32Max ==>
      (Sphere(Z, R, point, south, north, zero) == Throw(Failed) <==>
         R >= 0 && Z >= 2 && (R >= 32767 || SphereVertexQuantity(Z, R) >= 32768))
    ensures R >= 0 && Z >= 2 && SphereVertexQuantity(Z, R) > Int32Max ==>
      Sphere(Z, R, point, south, north, zero).Throw? &&
      Sphere(Z, R, point, south, north, zero).exception in {Overflow, IndexOutOfRange}
    ensures Sphere(131074, 32766, point, south, north, zero) == Throw(Overflow)
    ensures Sphere(0, 2147483646, point, south, north, zero) == Throw(Failed)
  {
    SphereSucceeds(Z, R, point, south, north, zero);
    SphereRejects(Z, R, point, south, north, zero);
    assert Wrap32(SphereVertexQuantity(131074, 32766)) == -131070;
    assert Wrap32(SphereVertexQuantity(0, 2147483646)) == 4;
    assert Wrap32(3 * (2 * (0 - 2) * 2147483646)) == 24;
  }

  lemma SphereSucceeds(Z: Int32, R: Int32, point: (int, int) -> Vector3, south: Vector3, north: Vector3, zero: Vector3)
    ensures var r := Sphere(Z, R, point, south, north, zero);
      && (r.Ok? <==> 0 <= R < 32767 && Z >= 2 && SphereVertexQuantity(Z, R) < 32768 && (Z == 2 ==> R == 0))
      && (r.Throw? ==> r.exception in {Overflow, IndexOutOfRange, Failed})
  {
    if 0 <= R < 32767 && Z >= 2 && SphereVertexQuantity(Z, R) < 32768 && (Z == 2 ==> R == 0) {
      SphereBuilds(Z, R, point, south, north, zero);
    }
  }

  /** Small enough sizes never wrap, so the sphere builds. */
  lemma SphereBuilds(Z: Int32, R: Int32, point: (int, int) -> Vector3, south: Vector3, north: Vector3, zero: Vector3)
    requires 0 <= R < 32767 && Z >= 2 && SphereVertexQuantity(Z, R) < 32768 && (Z == 2 ==> R == 0)
    ensures Sphere(Z, R, point, south, north, zero).Ok?
  {
    MulSign(Z - 2, R + 1);
    SphereIndicesFit(Z, R);
  }

  lemma SphereRejects(Z: Int32, R: Int32, point: (int, int) -> Vector3, south: Vector3, north: Vector3, zero: Vector3)
    ensures Int32Min <= SphereVertexQuantity(Z, R) <= Int32Max && Int32Min <= 3 * (2 * (Z - 2) * R) <= Int32Max &&
            Int32Min < Z && R < Int32Max ==>
      (Sphere(Z, R, point, south, north, zero) == Throw(Failed) <==>
         R >= 0 && Z >= 2 && (R >= 32767 || SphereVertexQuantity(Z, R) >= 32768))
    ensures R >= 0 && Z >= 2 && SphereVertexQuantity(Z, R) > Int32Max ==>
      Sphere(Z, R, point, south, north, zero).Throw? &&
      Sphere(Z, R, point, south, north, zero).exception in {Overflow, IndexOutOfRange}
  {
    MulSign(Z - 2, R + 1);
    MulSign(Z - 2, R);
  }

  /** The vertex buffer size: `(zSegments - 2) * (radialSegments + 1) +
      2` vertices, with the two poles in the last two slots. */
  lemma SphereVertexCount(Z: nat, R: nat, point: (int, int) -> Vector3, south: Vector3, north: Vector3,
                          zero: Vector3)
    requires Z >= 2
    ensures var vs := SphereVertices(Z, R, point, south, north, zero);
      var vq := SphereVertexQuantity(Z, R);
      && |vs| == vq && vs[vq - 2] == south && vs[vq - 1] == north
  {
    var rings := Concat(Z - 2, SphereRing(point, zero, R));
    ConcatLength(Z - 2, SphereRing(point, zero, R), R + 1);
    assert |rings| == SphereVertexQuantity(Z, R) - 2;
    assert SphereVertices(Z, R, point, south, north, zero) == rings + [south, north];
  }

  /** The texture coordinate buffer has as many slots as the vertex
      buffer, with `(1/2, 1/2)` and `(1/2, 1)` for the poles. */
  lemma SphereUVCount(Z: nat, R: nat)
    requires Z >= 2
    ensures var vq := SphereVertexQuantity(Z, R);
      && |SphereUVs(Z, R)| == vq
      && SphereUVs(Z, R)[vq - 2] == UV(Ratio(1, 2), Ratio(1, 2)) && SphereUVs(Z, R)[vq - 1] == UV(Ratio(1, 2), Ratio(1, 1))
  {
    var uvRings := Concat(Z - 2, SphereUVRing(Z, R));
    ConcatLength(Z - 2, SphereUVRing(Z, R), R + 1);
    assert |uvRings| == SphereVertexQuantity(Z, R) - 2;
    assert SphereUVs(Z, R) == uvRings + [UV(Ratio(1, 2), Ratio(1, 2)), UV(Ratio(1, 2), Ratio(1, 1))];
  }

  /** `3 * 2 * (zSegments - 2) * radialSegments` indices, for every shape
      `CreateSphere` accepts. */
  lemma SphereTriangleCount(Z: nat, R: nat)
    requires Z >= 3 || (Z == 2 && R == 0)
    ensures |SphereTriangles(Z, R)| == 3 * (2 * (Z - 2) * R)
  {
    SphereBandWidths(Below(Z - 3), R);
    ConcatLength(Below(Z - 3), SphereBand(R), 6 * R);
    ConcatLength(R, SouthFan(SphereVertexQuantity(Z, R)), 3);
    ConcatLength(R, NorthFan(SphereVertexQuantity(Z, R), (Z - 3) * (R + 1)), 3);
    SphereIndexCount(Z, R);
  }

  lemma SphereBandWidths(bands: nat, R: nat)
    ensures Uniform(bands, SphereBand(R), 6 * R)
  {
    forall iZ: nat | iZ < bands ensures |SphereBand(R)(iZ)| == 6 * R {
      ConcatLength(R, SphereQuads(R, iZ), 6);
    }
  }

  /** Slot `r` of ring `k` sits at `k * (R + 1) + r` of both buffers. */
  lemma SphereSlot(Z: nat, R: nat, point: (int, int) -> Vector3, south: Vector3, north: Vector3, zero: Vector3,
                   k: nat, r: nat)
    requires Z >= 2 && k < Z - 2 && r <= R
    ensures var vs := SphereVertices(Z, R, point, south, north, zero);
      k * (R + 1) + r < |vs| && vs[k * (R + 1) + r] == SphereRing(point, zero, R)(k)[r]
  {
    var rings := Concat(Z - 2, SphereRing(point, zero, R));
    ConcatIndex(Z - 2, SphereRing(point, zero, R), R + 1, k, r);
    assert SphereVertices(Z, R, point, south, north, zero) == rings + [south, north];
  }

  lemma SphereUVSlot(Z: nat, R: nat, k: nat, r: nat)
    requires Z >= 2 && k < Z - 2 && r <= R
    ensures k * (R + 1) + r < |SphereUVs(Z, R)| && SphereUVs(Z, R)[k * (R + 1) + r] == SphereUVRing(Z, R)(k)[r]
  {
    var uvRings := Concat(Z - 2, SphereUVRing(Z, R));
    ConcatIndex(Z - 2, SphereUVRing(Z, R), R + 1, k, r);
    assert SphereUVs(Z, R) == uvRings + [UV(Ratio(1, 2), Ratio(1, 2)), UV(Ratio(1, 2), Ratio(1, 1))];
  }

  /** Sample `r < R` of ring `k` (`zIndex = k + 1`) sits at `k * (R + 1)
      + r`, with texture coordinates `(r / R, zIndex / (zSegments - 1))`. */
  lemma SphereVertex(Z: nat, R: nat, point: (int, int) -> Vector3, south: Vector3, north: Vector3, zero: Vector3,
                     k: nat, r: nat)
    requires Z >= 2 && k < Z - 2 && r < R
    ensures var vs, uvs := SphereVertices(Z, R, point, south, north, zero), SphereUVs(Z, R);
      var at := k * (R + 1) + r;
      && at < |vs| && at < |uvs|
      && vs[at] == point(k + 1, r) && uvs[at] == UV(Ratio(r, R), Ratio(k + 1, Z - 1))
  {
    SphereSlot(Z, R, point, south, north, zero, k, r);
    SphereUVSlot(Z, R, k, r);
  }

  /** The last slot of every ring repeats the ring's first vertex, with
      `u = 1`. */
  lemma SphereSeam(Z: nat, R: nat, point: (int, int) -> Vector3, south: Vector3, north: Vector3, zero: Vector3,
                   k: nat)
    requires Z >= 2 && k < Z - 2 && R > 0
    ensures var vs, uvs := SphereVertices(Z, R, point, south, north, zero), SphereUVs(Z, R);
      var last := k * (R + 1) + R;
      && last < |vs| && last < |uvs|
      && vs[last] == vs[k * (R + 1)] && uvs[last] == UV(Ratio(1, 1), Ratio(k + 1, Z - 1))
  {
    SphereSlot(Z, R, point, south, north, zero, k, R);
    SphereSlot(Z, R, point, south, north, zero, k, 0);
    SphereUVSlot(Z, R, k, R);
  }

  /** Quad `j` of band `iZ` after the winding pass: `(i1, i2, i0)` and
      `(i3, i2, i1)`. */
  function WoundQuad(R: nat, iZ: nat, j: nat): seq<int> {
    var i0 := iZ * (R + 1) + j;
    var i2 := i0 + R + 1;
    [i0 + 1, i2, i0, i2 + 1, i2, i0 + 1]
  }

  function WoundQuads(R: nat, iZ: nat): nat -> seq<int> {
    (j: nat) => WoundQuad(R, iZ, j)
  }

  function WoundBand(R: nat): nat -> seq<int> {
    (iZ: nat) => Concat(R, WoundQuads(R, iZ))
  }

  /** South fan triangle `j` after the winding pass: `(vq - 2, j + 1, j)`. */
  function SouthCap(vq: int): nat -> seq<int> {
    (j: nat) => [vq - 2, j + 1, j]
  }

  /** North fan triangle `j` after the winding pass: `(j + 1 + offset, vq -
      1, j + offset)`. */
  function NorthCap(vq: int, offset: int): nat -> seq<int> {
    (j: nat) => [j + 1 + offset, vq - 1, j + offset]
  }

  /** Rewinding a buffer of blocks of whole triangles rewinds each block. */
  lemma {:induction false} RewoundConcat(n: nat, f: nat -> seq<int>, g: nat -> seq<int>)
    requires forall a: nat :: a < n ==> |f(a)| % 3 == 0 && Rewound(f(a)) == g(a)
    ensures |Concat(n, f)| % 3 == 0
    ensures Rewound(Concat(n, f)) == Concat(n, g)
  {
    if n > 0 {
      var init := Concat(n - 1, f);
      RewoundConcat(n - 1, f, g);
      assert |f(n - 1)| % 3 == 0 && Rewound(f(n - 1)) == g(n - 1);
      assert Concat(n, f) == init + f(n - 1);
      RewoundAppend(init, f(n - 1));
    }
  }

  lemma {:induction false} WoundBandIs(R: nat, iZ: nat)
    ensures |SphereBand(R)(iZ)| % 3 == 0
    ensures Rewound(SphereBand(R)(iZ)) == WoundBand(R)(iZ)
  {
    forall j: nat | j < R
      ensures |SphereQuads(R, iZ)(j)| % 3 == 0 && Rewound(SphereQuads(R, iZ)(j)) == WoundQuads(R, iZ)(j)
    {
      var q := SphereQuad(R, iZ, j);
      assert q[3..][3..] == [];
    }
    RewoundConcat(R, SphereQuads(R, iZ), WoundQuads(R, iZ));
  }

  lemma BandsWound(bands: nat, R: nat)
    ensures |Concat(bands, SphereBand(R))| % 3 == 0
    ensures Rewound(Concat(bands, SphereBand(R))) == Concat(bands, WoundBand(R))
  {
    forall iZ: nat | iZ < bands
      ensures |SphereBand(R)(iZ)| % 3 == 0 && Rewound(SphereBand(R)(iZ)) == WoundBand(R)(iZ)
    {
      WoundBandIs(R, iZ);
    }
    RewoundConcat(bands, SphereBand(R), WoundBand(R));
  }

  lemma SouthFanWound(R: nat, vq: int)
    ensures |Concat(R, SouthFan(vq))| % 3 == 0
    ensures Rewound(Concat(R, SouthFan(vq))) == Concat(R, SouthCap(vq))
  {
    forall j: nat | j < R
      ensures |SouthFan(vq)(j)| % 3 == 0 && Rewound(SouthFan(vq)(j)) == SouthCap(vq)(j)
    {
      assert SouthFan(vq)(j)[3..] == [];
    }
    RewoundConcat(R, SouthFan(vq), SouthCap(vq));
  }

  lemma NorthFanWound(R: nat, vq: int, offset: int)
    ensures |Concat(R, NorthFan(vq, offset))| % 3 == 0
    ensures Rewound(Concat(R, NorthFan(vq, offset))) == Concat(R, NorthCap(vq, offset))
  {
    forall j: nat | j < R
      ensures |NorthFan(vq, offset)(j)| % 3 == 0 && Rewound(NorthFan(vq, offset)(j)) == NorthCap(vq, offset)(j)
    {
      assert NorthFan(vq, offset)(j)[3..] == [];
    }
    RewoundConcat(R, NorthFan(vq, offset), NorthCap(vq, offset));
  }

  /** The index buffer `CreateSphere` produces, stated triangle by
      triangle as it stands after the winding pass. */
  lemma SphereWinding(Z: nat, R: nat)
    requires Z >= 2
    ensures var vq := SphereVertexQuantity(Z, R);
      SphereTriangles(Z, R)
        == Concat(Below(Z - 3), WoundBand(R)) + Concat(R, SouthCap(vq)) + Concat(R, NorthCap(vq, (Z - 3) * (R + 1)))
  {
    var vq := SphereVertexQuantity(Z, R);
    var offset := (Z - 3) * (R + 1);
    var bands := Below(Z - 3);
    BandsWound(bands, R);
    SouthFanWound(R, vq);
    NorthFanWound(R, vq, offset);
    var bandPart := Concat(bands, SphereBand(R));
    var southPart := Concat(R, SouthFan(vq));
    var northPart := Concat(R, NorthFan(vq, offset));
    assert SphereIndices(bands, R, vq, offset) == bandPart + (southPart + northPart);
    RewoundAppend(bandPart, southPart + northPart);
    RewoundAppend(southPart, northPart);
  }

  /** Every index of a sphere names one of its vertices. */
  lemma SphereIndicesInRange(Z: nat, R: nat)
    requires Z >= 3 || (Z == 2 && R == 0)
    ensures forall k :: 0 <= k < |SphereTriangles(Z, R)| ==> 0 <= SphereTriangles(Z, R)[k] < SphereVertexQuantity(Z, R)
  {
    var vq := SphereVertexQuantity(Z, R);
    var offset := (Z - 3) * (R + 1);
    var bands := Below(Z - 3);
    var s := SphereIndices(bands, R, vq, offset);
    RewoundPermutes(s);
    if Z >= 3 {
      forall k | 0 <= k < |SphereTriangles(Z, R)|
        ensures 0 <= SphereTriangles(Z, R)[k] < vq
      {
        var x := SphereTriangles(Z, R)[k];
        assert x in multiset(Rewound(s));
        SphereIndexInRange(Z, R, x);
      }
    } else {
      assert s == [];
    }
  }

  lemma SphereIndexInRange(Z: nat, R: nat, x: int)
    requires Z >= 3
    requires x in SphereIndices(Below(Z - 3), R, SphereVertexQuantity(Z, R), (Z - 3) * (R + 1))
    ensures 0 <= x < SphereVertexQuantity(Z, R)
  {
    var vq := SphereVertexQuantity(Z, R);
    var offset := (Z - 3) * (R + 1);
    var bands := Z - 3;
    NextMultiple(bands, R + 1);
    MulMono(0, bands, R + 1);
    assert vq == offset + R + 1 + 2 && offset >= 0 && (bands + 1) * (R + 1) == vq - 2;
    FanIndexInRange(bands, R, vq, offset, x);
  }

  lemma FanIndexInRange(bands: nat, R: nat, vq: int, offset: nat, x: int)
    requires vq == offset + R + 3 && (bands + 1) * (R + 1) == vq - 2
    requires x in SphereIndices(bands, R, vq, offset)
    ensures 0 <= x < vq
  {
    var bandPart := Concat(bands, SphereBand(R));
    var southPart := Concat(R, SouthFan(vq));
    var northPart := Concat(R, NorthFan(vq, offset));
    if x in bandPart {
      BandIndexInRange(bands, R, x);
    } else if x in southPart {
      var k :| 0 <= k < |southPart| && southPart[k] == x;
      ConcatMember(R, SouthFan(vq), k);
    } else {
      assert x in northPart;
      var k :| 0 <= k < |northPart| && northPart[k] == x;
      ConcatMember(R, NorthFan(vq, offset), k);
    }
  }

  /** The bands use the vertices of the rings only. */
  lemma BandIndexInRange(bands: nat, R: nat, x: int)
    requires x in Concat(bands, SphereBand(R))
    ensures 0 <= x < (bands + 1) * (R + 1)
  {
    var bandPart := Concat(bands, SphereBand(R));
    var k :| 0 <= k < |bandPart| && bandPart[k] == x;
    ConcatMember(bands, SphereBand(R), k);
    var iZ :| 0 <= iZ < bands && x in SphereBand(R)(iZ);
    SphereBandBounds(R, iZ, x);
    MulMono(iZ + 2, bands + 1, R + 1);
  }

  /** The indices of a band lie in its two rings. */
  lemma SphereBandBounds(R: nat, iZ: nat, x: int)
    requires x in SphereBand(R)(iZ)
    ensures 0 <= x < (iZ + 2) * (R + 1)
  {
    var band := SphereBand(R)(iZ);
    var i :| 0 <= i < |band| && band[i] == x;
    ConcatMember(R, SphereQuads(R, iZ), i);
    var j :| 0 <= j < R && x in SphereQuad(R, iZ, j);
    QuadIndexInRange(R, iZ, j, x);
  }

  lemma QuadIndexInRange(R: nat, iZ: nat, j: nat, x: int)
    requires j < R && x in SphereQuad(R, iZ, j)
    ensures 0 <= x < (iZ + 2) * (R + 1)
  {
    NextMultiple(iZ, R + 1);
    NextMultiple(iZ + 1, R + 1);
  }
}
