/** What the two `Interpret` methods make of a module string: the opcode
    loop of `Turtles`, each `F` packing a segment template into the mesh
    chunks (`CreateSegment`) and each `]` decorating the branch end with
    leaves (`AddFoliageAt`). LSystemInterpreter.cs and LSystem.cs differ
    only in the parameters collected in a `Painter`. */
module Drawing {
  import opened Runtime
  import opened Text
  import opened Geometry
  import opened Turtles
  import opened Meshes

  /** A leaf instantiated by `AddFoliageAt`: the pose it hangs from and the
      iteration of the two loops that placed it (its float offset and
      angles are functions of these). */
  datatype Leaf = Leaf(turtle: Turtle, row: nat, column: nat)

  /** The leaves of `AddFoliageAt` at pose `t`: the outer loop runs over
      the rows, row `i` placing `widths[i]` leaves. */
  function Foliage(t: Turtle, widths: seq<nat>): seq<Leaf> {
    if widths == [] then []
    else
      var i := |widths| - 1;
      Foliage(t, widths[..i]) + seq(widths[i], j requires 0 <= j < widths[i] => Leaf(t, i, j))
  }

  function Total(widths: seq<nat>): nat {
    if widths == [] then 0 else Total(widths[..|widths| - 1]) + widths[|widths| - 1]
  }

  /** The leaves are placed row by row: as many as the rows hold, every
      one at `t`, leaf `j` of row `i` coming after all of rows `0..i-1`. */
  lemma {:induction false} FoliageShape(t: Turtle, widths: seq<nat>)
    ensures |Foliage(t, widths)| == Total(widths)
    ensures forall k :: 0 <= k < |Foliage(t, widths)| ==>
      var leaf := Foliage(t, widths)[k];
      leaf.turtle == t && leaf.row < |widths| && leaf.column < widths[leaf.row]
  {
    if widths != [] {
      var i := |widths| - 1;
      FoliageShape(t, widths[..i]);
      var front := Foliage(t, widths[..i]);
      forall k | 0 <= k < |Foliage(t, widths)|
        ensures Foliage(t, widths)[k].turtle == t && Foliage(t, widths)[k].row < |widths|
        ensures Foliage(t, widths)[k].column < widths[Foliage(t, widths)[k].row]
      {
        if k < |front| {
          assert Foliage(t, widths)[k] == front[k];
          assert widths[..i][front[k].row] == widths[front[k].row];
        }
      }
    }
  }

  /** The cylinder radius of `CreateSegment` at a nesting level: half the
      segment width, shared out over `nestingLevel + 1` when branches
      narrow. */
  function Thickness(segmentWidth: real, narrowBranches: bool, nestingLevel: nat): real {
    if narrowBranches then segmentWidth * (0.5 / (nestingLevel + 1) as real) else segmentWidth * 0.5
  }

  /** Narrowing shares the half width out: the radius at a level times
      the level plus one is half the segment width. Without narrowing every
      level has half the width. */
  lemma ThicknessShares(segmentWidth: real, narrowBranches: bool, nestingLevel: nat)
    ensures narrowBranches ==>
              Thickness(segmentWidth, narrowBranches, nestingLevel) * (nestingLevel + 1) as real == segmentWidth * 0.5
    ensures !narrowBranches ==> Thickness(segmentWidth, narrowBranches, nestingLevel) == segmentWidth * 0.5
  {
  }

  /** How an interpreter turns events into geometry: the turtle parameters,
      the segment template for a nesting level, where a template vertex
      goes for a segment at a pose, and the leaves a `]` places when
      foliage is on. */
  datatype Painter = Painter(
    ops: Ops,
    angle: real,
    order: Order,
    template: nat -> Result<MeshData>,
    place: Turtle -> Vector3 -> Vector3,
    useFoliage: bool,
    foliage: Turtle -> seq<Leaf>)

  /** The loop state: the turtle walk, the chunks and the leaves. */
  datatype Canvas = Canvas(walk: Walk, packing: Packing, leaves: seq<Leaf>)

  /** One symbol: the turtle step; for an `F` the template of the current
      nesting level (building it may throw) placed at the emitted pose;
      for a `]` with foliage on, the leaves at the pose before the pop. */
  function Paint(p: Painter, c: Canvas, sym: char): Result<Canvas> {
    match Step(p.ops, p.angle, p.order, c.walk, sym)
    case Throw(e) => Throw(e)
    case Ok(w) =>
      if sym == 'F' then
        match p.template(|c.walk.stack|)
        case Throw(e) => Throw(e)
        case Ok(m) =>
          Ok(Canvas(w, Place(c.packing, m, p.place(Emitted(p.ops, p.order, c.walk.current))), c.leaves))
      else if sym == ']' && p.useFoliage then
        Ok(Canvas(w, c.packing, c.leaves + p.foliage(c.walk.current)))
      else
        Ok(c.(walk := w))
  }

  /** The symbols of `s` in order, stopping at the first exception. */
  function PaintAll(p: Painter, c: Canvas, s: string): Result<Canvas> {
    if s == [] then Ok(c)
    else
      match PaintAll(p, c, s[..|s| - 1])
      case Throw(e) => Throw(e)
      case Ok(d) => Paint(p, d, s[|s| - 1])
  }

  /** The state before the loop: the start turtle, an empty stack, one
      empty chunk and no leaves. */
  function Blank(p: Painter, segmentHeight: real): Canvas {
    Canvas(Begin(p.ops, segmentHeight), Unpacked, [])
  }

  /** What an interpretation hands to the scene: every chunk, the last one
      sealed after the loop, and the leaves. */
  datatype Output = Output(chunks: seq<MeshData>, leaves: seq<Leaf>)

  function Picture(p: Painter, segmentHeight: real, s: string): Result<Output> {
    match PaintAll(p, Blank(p, segmentHeight), s)
    case Throw(e) => Throw(e)
    case Ok(c) => Ok(Output(Chunks(c.packing), c.leaves))
  }

  /** What one symbol does to each part of the state. */
  lemma PaintEffect(p: Painter, c: Canvas, sym: char)
    requires Paint(p, c, sym).Ok?
    ensures Step(p.ops, p.angle, p.order, c.walk, sym).Ok?
    ensures var d := Paint(p, c, sym).value;
      && d.walk == Step(p.ops, p.angle, p.order, c.walk, sym).value
      && d.walk.branchEnds == c.walk.branchEnds + (if sym == ']' then [c.walk.current] else [])
      && (sym == 'F' ==>
            && p.template(|c.walk.stack|).Ok?
            && d.packing == Place(c.packing, p.template(|c.walk.stack|).value,
                                  p.place(Emitted(p.ops, p.order, c.walk.current))))
      && (sym != 'F' ==> d.packing == c.packing)
      && d.leaves == c.leaves + (if sym == ']' && p.useFoliage then p.foliage(c.walk.current) else [])
  {
  }

  /** One more symbol after a prefix that painted to `d`. */
  lemma PaintAllSnoc(p: Painter, c: Canvas, s: string, i: nat, d: Canvas)
    requires i < |s| && PaintAll(p, c, s[..i]) == Ok(d)
    ensures PaintAll(p, c, s[..i + 1]) == Paint(p, d, s[i])
  {
    assert s[..i + 1][..i] == s[..i];
  }

  /** Once a prefix throws, the whole string throws the same. */
  lemma {:induction false} PaintAllAbort(p: Painter, c: Canvas, s: string, k: nat)
    requires k <= |s| && PaintAll(p, c, s[..k]).Throw?
    ensures PaintAll(p, c, s) == PaintAll(p, c, s[..k])
    decreases |s| - k
  {
    if k < |s| {
      assert s[..k + 1][..k] == s[..k];
      PaintAllAbort(p, c, s, k + 1);
    } else {
      assert s[..k] == s;
    }
  }

  /** Every template can be built. */
  ghost predicate TemplatesBuild(p: Painter) {
    forall d: nat :: p.template(d).Ok?
  }

  /** The geometry follows the turtle: a painting that completes walks
      exactly as `Run` does, and when every template can be built the
      painting completes exactly when the walk does and otherwise throws
      what the walk throws. */
  lemma {:induction false} PaintFollowsWalk(p: Painter, c: Canvas, s: string)
    ensures PaintAll(p, c, s).Ok? ==> Run(p.ops, p.angle, p.order, c.walk, s) == Ok(PaintAll(p, c, s).value.walk)
    ensures TemplatesBuild(p) ==>
      (PaintAll(p, c, s).Ok? <==> Run(p.ops, p.angle, p.order, c.walk, s).Ok?)
    ensures TemplatesBuild(p) && PaintAll(p, c, s).Throw? ==>
      Run(p.ops, p.angle, p.order, c.walk, s) == Throw(PaintAll(p, c, s).exception)
  {
    if s != [] {
      PaintFollowsWalk(p, c, s[..|s| - 1]);
      if PaintAll(p, c, s[..|s| - 1]).Ok? {
        var d := PaintAll(p, c, s[..|s| - 1]).value;
        assert PaintAll(p, c, s) == Paint(p, d, s[|s| - 1]);
      }
    }
  }

  /** Every template the painter builds has well-formed buffers, indices
      in range and `size` vertices, and `size` fits in a chunk. */
  ghost predicate TemplatesFit(p: Painter, size: nat) {
    && size <= VertexLimit
    && forall d: nat :: p.template(d).Ok? ==>
         var m := p.template(d).value;
         WellFormed(m) && IndicesInRange(m) && |m.vertices| == size
  }

  /** Packing keeps every chunk well formed, in range and within 65000
      vertices, never changes a sealed chunk, and holds exactly `size`
      vertices per `F` read. */
  lemma {:induction false} PaintPacking(p: Painter, c: Canvas, s: string, size: nat)
    requires PackingValid(c.packing, VertexLimit) && TemplatesFit(p, size)
    ensures PaintAll(p, c, s).Ok? ==>
      var d := PaintAll(p, c, s).value;
      && PackingValid(d.packing, VertexLimit)
      && c.packing.sealedChunks <= d.packing.sealedChunks
      && PackedVertices(d.packing) == PackedVertices(c.packing) + size * Count(s, 'F')
  {
    if s != [] && PaintAll(p, c, s).Ok? {
      var init, sym := s[..|s| - 1], s[|s| - 1];
      PaintPacking(p, c, init, size);
      var d0 := PaintAll(p, c, init).value;
      assert PaintAll(p, c, s) == Paint(p, d0, sym);
      PaintPackingStep(p, d0, sym, size);
      assert s == init + [sym];
      CountSnoc(init, 'F', sym);
      ScaledCount(size, Count(init, 'F'), Count(s, 'F'));
    }
  }

  lemma ScaledCount(size: nat, before: nat, after: nat)
    requires after == before || after == before + 1
    ensures size * after == size * before + (if after == before then 0 else size)
  {
  }

  lemma PaintPackingStep(p: Painter, c: Canvas, sym: char, size: nat)
    requires PackingValid(c.packing, VertexLimit) && TemplatesFit(p, size) && Paint(p, c, sym).Ok?
    ensures var d := Paint(p, c, sym).value;
      && PackingValid(d.packing, VertexLimit)
      && c.packing.sealedChunks <= d.packing.sealedChunks
      && PackedVertices(d.packing) == PackedVertices(c.packing) + (if sym == 'F' then size else 0)
  {
    PaintEffect(p, c, sym);
    if sym == 'F' {
      var m := p.template(|c.walk.stack|).value;
      PlaceKeepsValid(c.packing, m, p.place(Emitted(p.ops, p.order, c.walk.current)));
    }
  }

  /** The leaves of the branch ends `ends`, in order. */
  function Decorations(p: Painter, ends: seq<Turtle>): seq<Leaf> {
    if ends == [] then []
    else Decorations(p, ends[..|ends| - 1]) + (if p.useFoliage then p.foliage(ends[|ends| - 1]) else [])
  }

  /** The leaves are those of the branch ends of the walk, in order: none
      when foliage is off. */
  lemma {:induction false} PaintLeaves(p: Painter, c: Canvas, s: string)
    ensures PaintAll(p, c, s).Ok? ==>
      var d := PaintAll(p, c, s).value;
      && |c.walk.branchEnds| <= |d.walk.branchEnds|
      && d.leaves == c.leaves + Decorations(p, d.walk.branchEnds[|c.walk.branchEnds|..])
  {
    if s != [] && PaintAll(p, c, s).Ok? {
      var init, sym := s[..|s| - 1], s[|s| - 1];
      PaintLeaves(p, c, init);
      var d0 := PaintAll(p, c, init).value;
      var d := PaintAll(p, c, s).value;
      assert d == Paint(p, d0, sym).value;
      PaintEffect(p, d0, sym);
      var n := |c.walk.branchEnds|;
      var before := d0.walk.branchEnds[n..];
      if sym == ']' {
        assert d.walk.branchEnds[n..] == before + [d0.walk.current];
        assert (before + [d0.walk.current])[..|before|] == before;
      }
    }
  }

  /** With `k` leaves per branch end, `|ends| * k` leaves in all, or none
      when foliage is off. */
  lemma {:induction false} DecorationsCount(p: Painter, ends: seq<Turtle>, k: nat)
    requires forall t :: |p.foliage(t)| == k
    ensures |Decorations(p, ends)| == if p.useFoliage then |ends| * k else 0
  {
    if ends != [] {
      DecorationsCount(p, ends[..|ends| - 1], k);
      assert (|ends| - 1) * k + k == |ends| * k;
    }
  }

  /** A completed painting from the blank state: no `]` popped an empty
      stack, the chunks all fit, there are `size` vertices per `F`, the
      segment depths are the nesting depths of their `F`s, and each `]`
      placed `k` leaves when foliage is on. */
  lemma PictureShape(p: Painter, segmentHeight: real, s: string, size: nat, k: nat)
    requires TemplatesFit(p, size) && forall t :: |p.foliage(t)| == k
    requires Picture(p, segmentHeight, s).Ok?
    ensures NeverUnderflows(s, 0)
    ensures var out := Picture(p, segmentHeight, s).value;
      && out.chunks != []
      && (forall i :: 0 <= i < |out.chunks| ==>
            WellFormed(out.chunks[i]) && IndicesInRange(out.chunks[i]) && |out.chunks[i].vertices| <= VertexLimit)
      && VertexTotal(out.chunks) == size * Count(s, 'F')
      && |out.leaves| == (if p.useFoliage then Count(s, ']') * k else 0)
  {
    var c := Blank(p, segmentHeight);
    var d := PaintAll(p, c, s).value;
    UnpackedValid();
    PaintPacking(p, c, s, size);
    PaintFollowsWalk(p, c, s);
    RunShape(p.ops, p.angle, p.order, c.walk, s);
    PaintLeaves(p, c, s);
    assert d.walk.branchEnds[0..] == d.walk.branchEnds;
    DecorationsCount(p, d.walk.branchEnds, k);
    var chunks := Chunks(d.packing);
    forall i | 0 <= i < |chunks|
      ensures WellFormed(chunks[i]) && IndicesInRange(chunks[i]) && |chunks[i].vertices| <= VertexLimit
    {
      if i < |d.packing.sealedChunks| {
        assert chunks[i] == d.packing.sealedChunks[i];
      }
    }
  }
}
