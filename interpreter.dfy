/** LSystemInterpreter.cs: `Interpret` walks the module string with the
    turtle, packing one cylinder per `F` into 65000-vertex chunks through
    `CreateSegment` (with one cylinder cached per nesting level) and
    placing a grid of leaves at every `]` through `AddFoliageAt`. */
module Interpreter {
  import opened Runtime
  import opened Text
  import opened Geometry
  import opened Turtles
  import opened Meshes
  import opened Drawing
  import ProceduralMeshes
  import Buffers

  /** The parameters of `Interpret` that shape the result (the materials
      and the leaf size only reach the scene objects). */
  datatype Settings = Settings(
    segmentAxisSamples: Int32,
    segmentRadialSamples: Int32,
    segmentWidth: real,
    segmentHeight: real,
    leafAxialDensity: Int32,
    leafRadialDensity: Int32,
    useFoliage: bool,
    narrowBranches: bool,
    angle: real)

  /** The cylinder `CreateSegment` builds for a nesting level. `shape`
      gives the float sample points of a cylinder of the segment height
      and a given radius; `zero` is `default(Vector3)`. */
  function SegmentTemplate(st: Settings, shape: real -> ProceduralMeshes.CylinderSamples, zero: Vector3,
                           nestingLevel: nat): Result<MeshData>
  {
    ProceduralMeshes.Cylinder(st.segmentAxisSamples, st.segmentRadialSamples, shape(Thickness(st.segmentWidth, st.narrowBranches, nestingLevel)), zero)
  }

  /** Where `CreateSegment` puts a template vertex: `turtle.position +
      turtle.direction * vertex`. */
  function OnTurtle(ops: Ops, turtle: Turtle): Vector3 -> Vector3 {
    (v: Vector3) => ops.add(turtle.position, ops.rotate(turtle.direction, v))
  }

  /** The rows of `AddFoliageAt`: `leafAxialDensity` rows of
      `leafRadialDensity` leaves (none for a count below one). */
  function Grid(leafAxialDensity: int, leafRadialDensity: int): (widths: seq<nat>)
    ensures |widths| == ProceduralMeshes.Below(leafAxialDensity)
    ensures forall i :: 0 <= i < |widths| ==> widths[i] == ProceduralMeshes.Below(leafRadialDensity)
  {
    seq(ProceduralMeshes.Below(leafAxialDensity), _ => ProceduralMeshes.Below(leafRadialDensity))
  }

  function PainterOf(st: Settings, ops: Ops, shape: real -> ProceduralMeshes.CylinderSamples, zero: Vector3): Painter {
    Painter(ops, st.angle, EmitThenAdvance,
            (d: nat) => SegmentTemplate(st, shape, zero, d),
            (t: Turtle) => OnTurtle(ops, t),
            st.useFoliage,
            (t: Turtle) => Foliage(t, Grid(st.leafAxialDensity, st.leafRadialDensity)))
  }

  /** Cylinder settings every segment builds from: at least one ring, no
      negative radial count, and buffer sizes that fit in an `int`. */
  predicate UsableCylinder(st: Settings) {
    var A, R := st.segmentAxisSamples, st.segmentRadialSamples;
    A >= 1 && R >= 0 && A * (R + 1) <= Int32Max && 3 * (2 * (A - 1) * R) <= Int32Max
  }

  /** With at least one ring and no negative radial count, a cylinder
      builds exactly when the settings are usable, whatever the radius,
      and then has `axisSamples * (radialSamples + 1)` vertices and every
      index in range; whatever builds has well-formed buffers. */
  lemma TemplateShape(st: Settings, shape: real -> ProceduralMeshes.CylinderSamples, zero: Vector3, nestingLevel: nat)
    ensures var A, R := st.segmentAxisSamples, st.segmentRadialSamples;
      A >= 1 && R >= 0 ==> (SegmentTemplate(st, shape, zero, nestingLevel).Ok? <==> UsableCylinder(st))
    ensures SegmentTemplate(st, shape, zero, nestingLevel).Ok? ==>
      WellFormed(SegmentTemplate(st, shape, zero, nestingLevel).value)
    ensures UsableCylinder(st) ==>
      var m := SegmentTemplate(st, shape, zero, nestingLevel).value;
      && SegmentTemplate(st, shape, zero, nestingLevel).Ok?
      && IndicesInRange(m)
      && |m.vertices| == st.segmentAxisSamples * (st.segmentRadialSamples + 1)
  {
    var A, R := st.segmentAxisSamples, st.segmentRadialSamples;
    var samples := shape(Thickness(st.segmentWidth, st.narrowBranches, nestingLevel));
    var built := ProceduralMeshes.Cylinder(A, R, samples, zero);
    assert SegmentTemplate(st, shape, zero, nestingLevel) == built;
    ProceduralMeshes.CylinderOutcome(A, R, samples, zero);
    if A >= 1 && built.Ok? {
      ProceduralMeshes.CylinderCounts(A, R, samples, zero);
      ProceduralMeshes.CylinderIndicesInRange(A, R, samples, zero);
    }
  }

  lemma TemplateWellFormed(st: Settings, shape: real -> ProceduralMeshes.CylinderSamples, zero: Vector3, nestingLevel: nat)
    ensures SegmentTemplate(st, shape, zero, nestingLevel).Ok? ==> WellFormed(SegmentTemplate(st, shape, zero, nestingLevel).value)
  {
    TemplateShape(st, shape, zero, nestingLevel);
  }

  /** The cache only ever holds, for a level, the cylinder of that level. */
  ghost predicate CacheSound(st: Settings, shape: real -> ProceduralMeshes.CylinderSamples, zero: Vector3,
                             cache: map<nat, MeshData>)
  {
    forall d :: d in cache ==> SegmentTemplate(st, shape, zero, d) == Ok(cache[d])
  }

  /** The two `ref`/shared values `CreateSegment` updates: the chunks (the
      sealed ones and `currentMesh`) and `segmentsCache`. */
  datatype Segmented = Segmented(packing: Packing, cache: map<nat, MeshData>)

  /** `CreateSegment`: the cylinder of the level is taken from the cache,
      or built and cached; the current chunk is sealed when the cylinder
      would take it past 65000 vertices; then the cylinder is appended,
      placed on the turtle. An exception of the cylinder builder passes
      through. */
  method CreateSegment(st: Settings, ops: Ops, shape: real -> ProceduralMeshes.CylinderSamples, zero: Vector3,
                       turtle: Turtle, nestingLevel: nat, chunks: Packing, segmentsCache: map<nat, MeshData>)
    returns (r: Result<Segmented>)
    requires WellFormed(chunks.current) && CacheSound(st, shape, zero, segmentsCache)
    ensures r.Ok? <==> SegmentTemplate(st, shape, zero, nestingLevel).Ok?
    ensures r.Throw? ==> r.exception == SegmentTemplate(st, shape, zero, nestingLevel).exception
    ensures r.Ok? ==>
      var template := SegmentTemplate(st, shape, zero, nestingLevel).value;
      && r.value.packing == Place(chunks, template, OnTurtle(ops, turtle))
      && r.value.cache == segmentsCache[nestingLevel := template]
      && CacheSound(st, shape, zero, r.value.cache)
      && WellFormed(r.value.packing.current)
  {
    var cached := CachedTemplate(st, shape, zero, nestingLevel, segmentsCache);
    if cached.Throw? {
      return Throw(cached.exception);
    }
    var (segment, cache) := cached.value;
    TemplateWellFormed(st, shape, zero, nestingLevel);
    var packing := PlaceSegment(chunks, segment, OnTurtle(ops, turtle), zero);
    return Ok(Segmented(packing, cache));
  }

  /** The first half of `CreateSegment`: the cylinder of the level, from
      `segmentsCache` when it holds one, built and cached otherwise. */
  method CachedTemplate(st: Settings, shape: real -> ProceduralMeshes.CylinderSamples, zero: Vector3,
                        nestingLevel: nat, segmentsCache: map<nat, MeshData>)
    returns (r: Result<(MeshData, map<nat, MeshData>)>)
    requires CacheSound(st, shape, zero, segmentsCache)
    ensures r.Ok? <==> SegmentTemplate(st, shape, zero, nestingLevel).Ok?
    ensures r.Throw? ==> r.exception == SegmentTemplate(st, shape, zero, nestingLevel).exception
    ensures r.Ok? ==>
      && r.value.0 == SegmentTemplate(st, shape, zero, nestingLevel).value
      && r.value.1 == segmentsCache[nestingLevel := r.value.0]
      && CacheSound(st, shape, zero, r.value.1)
  {
    if nestingLevel in segmentsCache {
      return Ok((segmentsCache[nestingLevel], segmentsCache));
    }
    var thickness := Thickness(st.segmentWidth, st.narrowBranches, nestingLevel);
    var built := ProceduralMeshes.CreateCylinder(st.segmentAxisSamples, st.segmentRadialSamples, shape(thickness), zero);
    if built.Throw? {
      return Throw(built.exception);
    }
    return Ok((built.value, segmentsCache[nestingLevel := built.value]));
  }

  /** The second half of `CreateSegment`: the chunk test, then the
      template appended to the (new) current chunk. */
  method PlaceSegment(chunks: Packing, segment: MeshData, place: Vector3 -> Vector3, zero: Vector3)
    returns (r: Packing)
    requires WellFormed(chunks.current) && WellFormed(segment)
    ensures r == Place(chunks, segment, place)
  {
    var currentMesh := chunks.current;
    var sealedChunks := chunks.sealedChunks;
    if |currentMesh.vertices| + |segment.vertices| > VertexLimit {
      sealedChunks := sealedChunks + [currentMesh];
      currentMesh := EmptyMesh;
    }
    currentMesh := AppendSegment(currentMesh, segment, place, zero);
    return Packing(sealedChunks, currentMesh);
  }

  /** `AddFoliageAt`: for each of the `leafAxialDensity` rows, one leaf per
      radial step, hung from the turtle. */
  method AddFoliageAt(leafAxialDensity: int, leafRadialDensity: int, turtle: Turtle, leaves: seq<Leaf>)
    returns (r: seq<Leaf>)
    ensures r == leaves + Foliage(turtle, Grid(leafAxialDensity, leafRadialDensity))
  {
    ghost var widths := Grid(leafAxialDensity, leafRadialDensity);
    r := leaves;
    var i := 0;
    while i < leafAxialDensity
      invariant 0 <= i <= |widths|
      invariant r == leaves + Foliage(turtle, widths[..i])
    {
      var j := 0;
      while j < leafRadialDensity
        invariant 0 <= j <= widths[i]
        invariant r == leaves + Foliage(turtle, widths[..i]) + seq(j, k requires 0 <= k < j => Leaf(turtle, i, k))
      {
        r := r + [Leaf(turtle, i, j)];
        j := j + 1;
      }
      assert widths[..i + 1][..i] == widths[..i];
      i := i + 1;
    }
    assert widths[..i] == widths;
  }

  /** One pass of the opcode switch in `Interpret`: what the symbol does
      to the turtle, the stack, the chunks, the cache and the leaves is what
      painting it does to the canvas. */
  method Execute(st: Settings, ops: Ops, shape: real -> ProceduralMeshes.CylinderSamples, zero: Vector3,
                 symbol: char, current: Turtle, stack: seq<Turtle>, chunks: Packing,
                 segmentsCache: map<nat, MeshData>, leaves: seq<Leaf>, ghost walk: Walk)
    returns (r: Result<()>, current': Turtle, stack': seq<Turtle>, chunks': Packing,
             segmentsCache': map<nat, MeshData>, leaves': seq<Leaf>, ghost walk': Walk)
    requires walk.current == current && walk.stack == stack
    requires WellFormed(chunks.current) && CacheSound(st, shape, zero, segmentsCache)
    ensures var painted := Paint(PainterOf(st, ops, shape, zero), Canvas(walk, chunks, leaves), symbol);
      && (r.Ok? <==> painted.Ok?)
      && (r.Ok? ==> painted.value == Canvas(walk', chunks', leaves'))
      && (r.Throw? ==> painted == Throw(r.exception))
    ensures walk'.current == current' && walk'.stack == stack'
    ensures WellFormed(chunks'.current) && CacheSound(st, shape, zero, segmentsCache')
  {
    r, current', stack', chunks', segmentsCache', leaves', walk' := Ok(()), current, stack, chunks, segmentsCache, leaves, walk;
    if symbol == 'F' {
      var made := CreateSegment(st, ops, shape, zero, current, |stack|, chunks, segmentsCache);
      if made.Throw? {
        return Throw(made.exception), current', stack', chunks', segmentsCache', leaves', walk';
      }
      chunks', segmentsCache' := made.value.packing, made.value.cache;
      current' := Forward(ops, current);
      walk' := walk.(current := current', segments := walk.segments + [Placement(current, |stack|)]);
    } else if symbol == '+' {
      current' := RotateZ(ops, current, st.angle);
      walk' := walk.(current := current');
    } else if symbol == '-' {
      current' := RotateZ(ops, current, -st.angle);
      walk' := walk.(current := current');
    } else if symbol == '&' {
      current' := RotateX(ops, current, st.angle);
      walk' := walk.(current := current');
    } else if symbol == '^' {
      current' := RotateX(ops, current, -st.angle);
      walk' := walk.(current := current');
    } else if symbol == '\\' {
      current' := RotateY(ops, current, st.angle);
      walk' := walk.(current := current');
    } else if symbol == '/' {
      current' := RotateY(ops, current, -st.angle);
      walk' := walk.(current := current');
    } else if symbol == '|' {
      current' := RotateZ(ops, current, 180.0);
      walk' := walk.(current := current');
    } else if symbol == '[' {
      stack' := stack + [current];
      walk' := walk.(stack := stack');
    } else if symbol == ']' {
      if st.useFoliage {
        leaves' := AddFoliageAt(st.leafAxialDensity, st.leafRadialDensity, current, leaves);
      }
      if stack == [] {
        return Throw(InvalidOperation), current', stack', chunks', segmentsCache', leaves', walk';
      }
      current', stack' := stack[|stack| - 1], stack[..|stack| - 1];
      walk' := Walk(current', stack', walk.segments, walk.branchEnds + [current]);
    }
  }

  /** `Interpret`: the opcode loop over `moduleString`, then the sealing
      of the last chunk. A `]` on an empty stack is the
      `InvalidOperationException` of `Stack.Pop`. */
  method Interpret(st: Settings, ops: Ops, shape: real -> ProceduralMeshes.CylinderSamples, zero: Vector3,
                   moduleString: string)
    returns (r: Result<Output>)
    ensures r == Picture(PainterOf(st, ops, shape, zero), st.segmentHeight, moduleString)
  {
    ghost var p := PainterOf(st, ops, shape, zero);
    ghost var blank := Blank(p, st.segmentHeight);
    var chunks := Unpacked;
    var segmentsCache: map<nat, MeshData> := map[];
    var leaves: seq<Leaf> := [];
    var current := Start(ops, st.segmentHeight);
    var stack: seq<Turtle> := [];
    ghost var walk := blank.walk;
    var i := 0;
    while i < |moduleString|
      invariant 0 <= i <= |moduleString|
      invariant PaintAll(p, blank, moduleString[..i]) == Ok(Canvas(walk, chunks, leaves))
      invariant walk.current == current && walk.stack == stack
      invariant WellFormed(chunks.current) && CacheSound(st, shape, zero, segmentsCache)
    {
      PaintAllSnoc(p, blank, moduleString, i, Canvas(walk, chunks, leaves));
      var outcome;
      outcome, current, stack, chunks, segmentsCache, leaves, walk :=
        Execute(st, ops, shape, zero, moduleString[i], current, stack, chunks, segmentsCache, leaves, walk);
      if outcome.Throw? {
        PaintAllAbort(p, blank, moduleString, i + 1);
        return Throw(outcome.exception);
      }
      i := i + 1;
    }
    assert moduleString[..i] == moduleString;
    return Ok(Output(Chunks(chunks), leaves));
  }

  /** With usable cylinder settings, `Interpret` throws exactly when
      some `]` has no open `[` before it, and then with the
      `InvalidOperationException` of `Stack.Pop`. */
  lemma InterpretOutcome(st: Settings, ops: Ops, shape: real -> ProceduralMeshes.CylinderSamples, zero: Vector3,
                         moduleString: string)
    requires UsableCylinder(st)
    ensures Picture(PainterOf(st, ops, shape, zero), st.segmentHeight, moduleString).Ok? <==>
      NeverUnderflows(moduleString, 0)
    ensures Picture(PainterOf(st, ops, shape, zero), st.segmentHeight, moduleString).Throw? ==>
      Picture(PainterOf(st, ops, shape, zero), st.segmentHeight, moduleString).exception == InvalidOperation
  {
    var p := PainterOf(st, ops, shape, zero);
    PainterBuilds(st, ops, shape, zero);
    var blank := Blank(p, st.segmentHeight);
    assert |blank.walk.stack| == 0;
    PaintFollowsWalk(p, blank, moduleString);
    RunShape(p.ops, p.angle, p.order, blank.walk, moduleString);
  }

  /** What a completed `Interpret` hands to the scene when a cylinder fits
      in a chunk: every chunk, the last included, is well formed, in range
      and within 65000 vertices, the chunks hold one cylinder's vertices
      per `F`, and with foliage on every `]` placed `leafAxialDensity *
      leafRadialDensity` leaves. */
  lemma InterpretShape(st: Settings, ops: Ops, shape: real -> ProceduralMeshes.CylinderSamples, zero: Vector3,
                       moduleString: string)
    requires st.segmentAxisSamples >= 1 && st.segmentRadialSamples >= 0
    requires st.segmentAxisSamples * (st.segmentRadialSamples + 1) <= VertexLimit
    requires Picture(PainterOf(st, ops, shape, zero), st.segmentHeight, moduleString).Ok?
    ensures var out := Picture(PainterOf(st, ops, shape, zero), st.segmentHeight, moduleString).value;
      && out.chunks != []
      && (forall i :: 0 <= i < |out.chunks| ==>
            WellFormed(out.chunks[i]) && IndicesInRange(out.chunks[i]) && |out.chunks[i].vertices| <= VertexLimit)
      && VertexTotal(out.chunks) == st.segmentAxisSamples * (st.segmentRadialSamples + 1) * Count(moduleString, 'F')
      && |out.leaves| == (if st.useFoliage
                          then Count(moduleString, ']') * (ProceduralMeshes.Below(st.leafAxialDensity) *
                                                           ProceduralMeshes.Below(st.leafRadialDensity))
                          else 0)
  {
    var p := PainterOf(st, ops, shape, zero);
    PainterFits(st, ops, shape, zero);
    PictureShape(p, st.segmentHeight, moduleString, st.segmentAxisSamples * (st.segmentRadialSamples + 1),
                 ProceduralMeshes.Below(st.leafAxialDensity) * ProceduralMeshes.Below(st.leafRadialDensity));
  }

  /** With usable cylinder settings every cylinder builds. */
  lemma PainterBuilds(st: Settings, ops: Ops, shape: real -> ProceduralMeshes.CylinderSamples, zero: Vector3)
    requires UsableCylinder(st)
    ensures TemplatesBuild(PainterOf(st, ops, shape, zero))
  {
    var p := PainterOf(st, ops, shape, zero);
    forall d: nat ensures p.template(d).Ok? {
      TemplateShape(st, shape, zero, d);
    }
  }

  /** With a cylinder that fits a chunk every cylinder builds, fits a
      chunk and has `axisSamples * (radialSamples + 1)` vertices, and
      every `]` places the whole grid of leaves. */
  lemma PainterFits(st: Settings, ops: Ops, shape: real -> ProceduralMeshes.CylinderSamples, zero: Vector3)
    requires st.segmentAxisSamples >= 1 && st.segmentRadialSamples >= 0
    requires st.segmentAxisSamples * (st.segmentRadialSamples + 1) <= VertexLimit
    ensures TemplatesBuild(PainterOf(st, ops, shape, zero))
    ensures TemplatesFit(PainterOf(st, ops, shape, zero), st.segmentAxisSamples * (st.segmentRadialSamples + 1))
    ensures forall t :: |PainterOf(st, ops, shape, zero).foliage(t)| ==
                        ProceduralMeshes.Below(st.leafAxialDensity) * ProceduralMeshes.Below(st.leafRadialDensity)
  {
    var p := PainterOf(st, ops, shape, zero);
    var A, R := st.segmentAxisSamples, st.segmentRadialSamples;
    Buffers.MulMono(R, R + 1, A - 1);
    Buffers.MulMono(A - 1, A, R + 1);
    assert UsableCylinder(st);
    PainterBuilds(st, ops, shape, zero);
    forall d: nat | p.template(d).Ok?
      ensures WellFormed(p.template(d).value) && IndicesInRange(p.template(d).value)
      ensures |p.template(d).value.vertices| == st.segmentAxisSamples * (st.segmentRadialSamples + 1)
    {
      TemplateShape(st, shape, zero, d);
    }
    forall t ensures |p.foliage(t)| == ProceduralMeshes.Below(st.leafAxialDensity) * ProceduralMeshes.Below(st.leafRadialDensity) {
      GridFoliage(t, st.leafAxialDensity, st.leafRadialDensity);
    }
  }

  /** A grid of leaves holds `leafAxialDensity * leafRadialDensity` of
      them (none when either count is below one). */
  lemma GridFoliage(t: Turtle, leafAxialDensity: int, leafRadialDensity: int)
    ensures |Foliage(t, Grid(leafAxialDensity, leafRadialDensity))| ==
      ProceduralMeshes.Below(leafAxialDensity) * ProceduralMeshes.Below(leafRadialDensity)
  {
    var widths := Grid(leafAxialDensity, leafRadialDensity);
    FoliageShape(t, widths);
    UniformTotal(widths, ProceduralMeshes.Below(leafRadialDensity));
  }

  lemma {:induction false} UniformTotal(widths: seq<nat>, w: nat)
    requires forall i :: 0 <= i < |widths| ==> widths[i] == w
    ensures Total(widths) == |widths| * w
  {
    if widths != [] {
      UniformTotal(widths[..|widths| - 1], w);
      assert (|widths| - 1) * w + w == |widths| * w;
    }
  }
}
