/** LSystem.cs: the self-contained component that loads a grammar into its
    fields, derives the module string into `_moduleString` and interprets
    it into chunk meshes and leaves, moving the turtle before each segment
    and using a fixed 3 x 3 cylinder and a fixed 6 + 3 leaf pattern. */
module LSystems {
  import opened Runtime
  import opened Text
  import opened Geometry
  import opened Productions
  import opened ProductionRules
  import opened RuleSets
  import opened Parser
  import Deriver
  import Buffers
  import opened Turtles
  import opened Meshes
  import opened Drawing
  import ProceduralMeshes

  /** What `LoadFromFile` does with a line. Unlike the parser it does not
      trim the line, and a rule line that `Build` rejects yields `null`,
      which `Add` dereferences. */
  function LoadRead(line: string, parseFloat: string -> Parsed<real>, parseInt: string -> Parsed<Int32>): Effect {
    if KindOf(line) == RuleLine then AddEffect(Build(line, parseFloat))
    else Read(line, parseFloat, parseInt)
  }

  /** A setting line sets the axiom to its value, or parses its value into
      the angle or the number of derivations. */
  lemma LoadReadSetting(line: string, parseFloat: string -> Parsed<real>, parseInt: string -> Parsed<Int32>)
    ensures KindOf(line) == AxiomSetting ==> LoadRead(line, parseFloat, parseInt) == SetAxiom(ValueOf(line))
    ensures KindOf(line) == AngleSetting ==>
      LoadRead(line, parseFloat, parseInt) == AngleEffect(parseFloat(ValueOf(line)))
    ensures KindOf(line) == DerivationsSetting ==>
      LoadRead(line, parseFloat, parseInt) == DerivationsEffect(parseInt(ValueOf(line)))
  {
  }

  /** An empty line and a `//` comment are skipped; a lone `/` throws when
      the loop looks at its second character. */
  lemma LoadReadSkips(line: string, parseFloat: string -> Parsed<real>, parseInt: string -> Parsed<Int32>)
    ensures |line| == 0 ==> LoadRead(line, parseFloat, parseInt) == Skip
    ensures |line| == 1 && line[0] == '/' ==> LoadRead(line, parseFloat, parseInt) == Fail(IndexOutOfRange)
    ensures |line| >= 2 && line[0] == '/' && line[1] == '/' ==> LoadRead(line, parseFloat, parseInt) == Skip
    ensures |line| > 0 && !(line[0] == '/' && (|line| == 1 || line[1] == '/')) ==>
      KindOf(line) in {AxiomSetting, AngleSetting, DerivationsSetting, RuleLine}
  {
  }

  /** What `Add` of a built rule does: a `null` rule throws
      `NullReferenceException` when `Add` dereferences it. */
  function AddEffect(productionRule: Built): Effect {
    match productionRule
    case Null => Fail(NullReference)
    case Thrown(x) => Fail(x)
    case Rule(q) => AddRule(q)
  }

  function LoadReads(lines: seq<string>, parseFloat: string -> Parsed<real>, parseInt: string -> Parsed<Int32>)
    : (r: seq<Effect>)
    ensures |r| == |lines| && forall i :: 0 <= i < |lines| ==> r[i] == LoadRead(lines[i], parseFloat, parseInt)
  {
    seq(|lines|, i requires 0 <= i < |lines| => LoadRead(lines[i], parseFloat, parseInt))
  }

  /** The outcome of `LoadFromFile` from the fields `start`: the lines in
      order, then the probability check. */
  function Loaded(start: Grammar, lines: seq<string>, parseFloat: string -> Parsed<real>,
                  parseInt: string -> Parsed<Int32>): Result<Grammar>
  {
    match ApplyAll(start, LoadReads(lines, parseFloat, parseInt))
    case Throw(e) => Throw(e)
    case Ok(g) => if ProbabilitiesValid(g.productions) then Ok(g) else Throw(InvalidGrammar)
  }

  /** `LoadRead` by the kind of the line. */
  lemma LoadReadByKind(line: string, parseFloat: string -> Parsed<real>, parseInt: string -> Parsed<Int32>)
    ensures var e := LoadRead(line, parseFloat, parseInt);
      && (KindOf(line) in {Blank, Comment} ==> e == Skip)
      && (KindOf(line) == LoneSlash ==> e == Fail(IndexOutOfRange))
      && (KindOf(line) == AxiomSetting ==> e == SetAxiom(ValueOf(line)))
      && (KindOf(line) == AngleSetting ==>
            e == match parseFloat(ValueOf(line))
                 case Malformed => Fail(Format) case OutOfRange => Fail(Overflow) case Number(a) => SetAngle(a))
      && (KindOf(line) == DerivationsSetting ==>
            e == match parseInt(ValueOf(line))
                 case Malformed => Fail(Format) case OutOfRange => Fail(Overflow) case Number(n) => SetDerivations(n))
      && (KindOf(line) == RuleLine ==>
            e == match Build(line, parseFloat) case Null => Fail(NullReference) case Thrown(x) => Fail(x)
                                               case Rule(q) => AddRule(q))
  {
  }

  /** The two loaders read a line the same way once it is trimmed, except a
      rule line without exactly one `=`: the parser skips it and
      `LoadFromFile` throws `NullReferenceException`. */
  lemma LoadersAgree(line: string, parseFloat: string -> Parsed<real>, parseInt: string -> Parsed<Int32>)
    requires Trim(line) == line
    ensures KindOf(line) == RuleLine && Count(line, '=') != 1 ==>
      && ParserRead(line, parseFloat, parseInt) == Skip
      && LoadRead(line, parseFloat, parseInt) == Fail(NullReference)
    ensures !(KindOf(line) == RuleLine && Count(line, '=') != 1) ==>
      LoadRead(line, parseFloat, parseInt) == ParserRead(line, parseFloat, parseInt)
  {
    CarriageReturnTestDead(line, parseFloat, parseInt);
  }

  /** `CreateSegment` builds its mesh with an eight-argument
      `CreateCylinder(3, 3, thickness, _segmentHeight, ...)` whose code is
      not part of this model; it is the template `cylinder`, from the
      thickness to the mesh. A template fits when every mesh it returns is
      well formed, in range and has `size` vertices. */
  ghost predicate CylindersFit(cylinder: real -> MeshData, size: nat) {
    forall thickness: real ::
      WellFormed(cylinder(thickness)) && IndicesInRange(cylinder(thickness)) && |cylinder(thickness).vertices| == size
  }

  /** The template the overload is taken to be: the four-argument
      `CreateCylinder` with 3 axis and 3 radial samples, whose float sample
      points for a radius are `shape`. */
  function ThreeByThree(shape: real -> ProceduralMeshes.CylinderSamples, zero: Vector3): real -> MeshData {
    (thickness: real) => ProceduralMeshes.CylinderMesh(3, 3, shape(thickness), zero)
  }

  /** The 3 x 3 cylinder always builds, with 12 vertices, well-formed
      buffers and every index in range. */
  lemma ThreeByThreeFits(shape: real -> ProceduralMeshes.CylinderSamples, zero: Vector3)
    ensures forall thickness: real ::
      ProceduralMeshes.Cylinder(3, 3, shape(thickness), zero) == Ok(ThreeByThree(shape, zero)(thickness))
    ensures CylindersFit(ThreeByThree(shape, zero), 12)
  {
    forall thickness: real
      ensures ProceduralMeshes.Cylinder(3, 3, shape(thickness), zero) == Ok(ThreeByThree(shape, zero)(thickness))
      ensures var m := ThreeByThree(shape, zero)(thickness);
        WellFormed(m) && IndicesInRange(m) && |m.vertices| == 12
    {
      ProceduralMeshes.CylinderCounts(3, 3, shape(thickness), zero);
      ProceduralMeshes.CylinderIndicesInRange(3, 3, shape(thickness), zero);
    }
  }

  /** Where `CreateSegment` puts a template vertex: `vertexOffset +
      turtle.direction * vertex`, with `vertexOffset = turtle.position -
      turtle.direction * (new Vector3(width, height, 0) * 0.5)`. */
  function OnSegment(ops: Ops, turtle: Turtle, segmentWidth: real, segmentHeight: real): Vector3 -> Vector3 {
    var vertexOffset :=
      ops.sub(turtle.position, ops.rotate(turtle.direction, ops.vector(segmentWidth * 0.5, segmentHeight * 0.5, 0.0)));
    (v: Vector3) => ops.add(vertexOffset, ops.rotate(turtle.direction, v))
  }

  /** The rows of `AddFoliageAt`: row `i` of 2 holds `(2 - i) * 3` leaves. */
  const LeafRows: seq<nat> := [6, 3]

  /** Every `]` with foliage on places 9 leaves. */
  lemma LeafCount(t: Turtle)
    ensures |Foliage(t, LeafRows)| == 9
  {
    FoliageShape(t, LeafRows);
    assert LeafRows[..1] == [6] && LeafRows[..1][..0] == [];
  }

  /** How `LSystem` turns the opcode events into geometry: the turtle moves
      before a segment is emitted, every level gets the cylinder of its
      thickness, and a `]` places the fixed leaf pattern. */
  function Painting(ops: Ops, cylinder: real -> MeshData, angle: real,
                    segmentWidth: real, segmentHeight: real, narrowBranches: bool, useFoliage: bool): Painter
  {
    Painter(ops, angle, AdvanceThenEmit,
            (d: nat) => Ok(cylinder(Thickness(segmentWidth, narrowBranches, d))),
            (t: Turtle) => OnSegment(ops, t, segmentWidth, segmentHeight),
            useFoliage,
            (t: Turtle) => Foliage(t, LeafRows))
  }

  /** Every segment builds, and fits a chunk when the cylinders do; every
      `]` with foliage on places 9 leaves. */
  lemma PaintingFits(ops: Ops, cylinder: real -> MeshData, angle: real,
                     segmentWidth: real, segmentHeight: real, narrowBranches: bool, useFoliage: bool, size: nat)
    ensures TemplatesBuild(Painting(ops, cylinder, angle, segmentWidth, segmentHeight, narrowBranches, useFoliage))
    ensures CylindersFit(cylinder, size) && size <= VertexLimit ==>
      TemplatesFit(Painting(ops, cylinder, angle, segmentWidth, segmentHeight, narrowBranches, useFoliage), size)
    ensures forall t :: |Painting(ops, cylinder, angle, segmentWidth, segmentHeight, narrowBranches, useFoliage).foliage(t)| == 9
  {
    var p := Painting(ops, cylinder, angle, segmentWidth, segmentHeight, narrowBranches, useFoliage);
    forall d: nat
      ensures p.template(d) == Ok(cylinder(Thickness(segmentWidth, narrowBranches, d)))
    {
    }
    forall t ensures |p.foliage(t)| == 9 {
      LeafCount(t);
    }
  }

  /** `Interpret` throws exactly when some `]` has no open `[` before it,
      and then with the exception of `Stack.Pop`. */
  lemma PaintingOutcome(ops: Ops, cylinder: real -> MeshData, angle: real,
                        segmentWidth: real, segmentHeight: real, narrowBranches: bool, useFoliage: bool,
                        moduleString: string)
    ensures var picture := Picture(Painting(ops, cylinder, angle, segmentWidth, segmentHeight, narrowBranches, useFoliage),
                                   segmentHeight, moduleString);
      && (picture.Ok? <==> NeverUnderflows(moduleString, 0))
      && (picture.Throw? ==> picture.exception == InvalidOperation)
  {
    var p := Painting(ops, cylinder, angle, segmentWidth, segmentHeight, narrowBranches, useFoliage);
    PaintingFits(ops, cylinder, angle, segmentWidth, segmentHeight, narrowBranches, useFoliage, 0);
    var blank := Drawing.Blank(p, segmentHeight);
    assert |blank.walk.stack| == 0;
    PaintFollowsWalk(p, blank, moduleString);
    RunShape(p.ops, p.angle, p.order, blank.walk, moduleString);
  }

  /** A completed `Interpret` leaves every chunk well formed, in range and
      within 65000 vertices, `size` vertices per `F` and, with foliage on,
      9 leaves per `]`; with the 3 x 3 cylinder `size` is 12. */
  lemma PaintingShape(ops: Ops, cylinder: real -> MeshData, angle: real,
                      segmentWidth: real, segmentHeight: real, narrowBranches: bool, useFoliage: bool,
                      moduleString: string, size: nat)
    requires CylindersFit(cylinder, size) && size <= VertexLimit
    requires Picture(Painting(ops, cylinder, angle, segmentWidth, segmentHeight, narrowBranches, useFoliage),
                     segmentHeight, moduleString).Ok?
    ensures var out := Picture(Painting(ops, cylinder, angle, segmentWidth, segmentHeight, narrowBranches, useFoliage),
                               segmentHeight, moduleString).value;
      && out.chunks != []
      && (forall i :: 0 <= i < |out.chunks| ==>
            WellFormed(out.chunks[i]) && IndicesInRange(out.chunks[i]) && |out.chunks[i].vertices| <= VertexLimit)
      && VertexTotal(out.chunks) == size * Count(moduleString, 'F')
      && |out.leaves| == (if useFoliage then Count(moduleString, ']') * 9 else 0)
  {
    var p := Painting(ops, cylinder, angle, segmentWidth, segmentHeight, narrowBranches, useFoliage);
    PaintingFits(ops, cylinder, angle, segmentWidth, segmentHeight, narrowBranches, useFoliage, size);
    PictureShape(p, segmentHeight, moduleString, size, 9);
  }

  /** With the 3 x 3 cylinder every segment adds 12 vertices. */
  lemma ThreeByThreeShape(ops: Ops, shape: real -> ProceduralMeshes.CylinderSamples, zero: Vector3, angle: real,
                          segmentWidth: real, segmentHeight: real, narrowBranches: bool, useFoliage: bool,
                          moduleString: string)
    requires Picture(Painting(ops, ThreeByThree(shape, zero), angle, segmentWidth, segmentHeight, narrowBranches,
                              useFoliage), segmentHeight, moduleString).Ok?
    ensures VertexTotal(Picture(Painting(ops, ThreeByThree(shape, zero), angle, segmentWidth, segmentHeight,
                                         narrowBranches, useFoliage), segmentHeight, moduleString).value.chunks)
            == 12 * Count(moduleString, 'F')
  {
    ThreeByThreeFits(shape, zero);
    PaintingShape(ops, ThreeByThree(shape, zero), angle, segmentWidth, segmentHeight, narrowBranches, useFoliage,
                  moduleString, 12);
  }

  /** The `LSystem` component. Its serialized settings are constructor
      arguments; `chunks` and `leaves` are the children the scene holds
      under the "chunks" and "leafs" objects. */
  class LSystem {
    var axiom: string
    var angle: real
    var numberOfDerivations: Int32
    var narrowBranches: bool
    /** `_productionRules`, created with the component and filled by
        `LoadFromFile`. */
    const productionRules: ProductionRuleSet
    var moduleString: string
    var segmentWidth: real
    var segmentHeight: real
    var useFoliage: bool
    var chunks: seq<MeshData>
    var leaves: seq<Leaf>

    ghost predicate Valid()
      reads this, productionRules
    {
      productionRules.Valid()
    }

    /** The settings as one grammar. */
    function GrammarOf(): Grammar
      reads this, productionRules
    {
      Grammar(axiom, angle, numberOfDerivations, productionRules.lookupTable)
    }

    function PainterOf(ops: Ops, cylinder: real -> MeshData): Painter
      reads this`angle, this`segmentWidth, this`segmentHeight, this`narrowBranches, this`useFoliage
    {
      Painting(ops, cylinder, angle, segmentWidth, segmentHeight, narrowBranches, useFoliage)
    }

    constructor (axiom: string, angle: real, numberOfDerivations: Int32, narrowBranches: bool,
                 segmentWidth: real, segmentHeight: real, useFoliage: bool)
      ensures Valid() && fresh(productionRules) && productionRules.added == []
      ensures GrammarOf() == Grammar(axiom, angle, numberOfDerivations, map[])
      ensures this.narrowBranches == narrowBranches && this.segmentWidth == segmentWidth
      ensures this.segmentHeight == segmentHeight && this.useFoliage == useFoliage
      ensures moduleString == "" && chunks == [] && leaves == []
    {
      this.axiom := axiom;
      this.angle := angle;
      this.numberOfDerivations := numberOfDerivations;
      this.narrowBranches := narrowBranches;
      productionRules := new ProductionRuleSet();
      moduleString := "";
      this.segmentWidth := segmentWidth;
      this.segmentHeight := segmentHeight;
      this.useFoliage := useFoliage;
      chunks := [];
      leaves := [];
    }

    /** One pass of the `LoadFromFile` loop: the line sets a field or adds a
        rule as `LoadRead` says, or throws before it changes anything. */
    method LoadLine(line: string, parseFloat: string -> Parsed<real>, parseInt: string -> Parsed<Int32>)
      returns (r: Result<()>)
      requires Valid()
      modifies this`axiom, this`angle, this`numberOfDerivations, productionRules
      ensures Valid()
      ensures var effect := LoadRead(line, parseFloat, parseInt);
        && (r.Ok? <==> !effect.Fail?)
        && (r.Throw? ==> effect == Fail(r.exception))
        && (r.Ok? ==> Apply(old(GrammarOf()), effect) == Ok(GrammarOf()))
        && (r.Ok? ==>
              productionRules.added == old(productionRules.added) + (if effect.AddRule? then [effect.rule] else []))
      ensures r.Throw? ==> GrammarOf() == old(GrammarOf()) && productionRules.added == old(productionRules.added)
    {
      LoadReadSkips(line, parseFloat, parseInt);
      if |line| == 0 {
        return Ok(());
      }
      if line[0] == '/' {
        if |line| < 2 {
          return Throw(IndexOutOfRange);
        }
        if line[1] == '/' {
          return Ok(());
        }
      }
      r := LoadEntry(line, parseFloat, parseInt);
    }

    /** A setting line or a rule line: the three `IndexOf` tests pick the
        setting, and a line matching none of them is a rule. */
    method LoadEntry(line: string, parseFloat: string -> Parsed<real>, parseInt: string -> Parsed<Int32>)
      returns (r: Result<()>)
      requires Valid()
      requires KindOf(line) in {AxiomSetting, AngleSetting, DerivationsSetting, RuleLine}
      modifies this`axiom, this`angle, this`numberOfDerivations, productionRules
      ensures Valid()
      ensures var effect := LoadRead(line, parseFloat, parseInt);
        && (r.Ok? <==> !effect.Fail?)
        && (r.Throw? ==> effect == Fail(r.exception))
        && (r.Ok? ==> Apply(old(GrammarOf()), effect) == Ok(GrammarOf()))
        && (r.Ok? ==>
              productionRules.added == old(productionRules.added) + (if effect.AddRule? then [effect.rule] else []))
      ensures r.Throw? ==> GrammarOf() == old(GrammarOf()) && productionRules.added == old(productionRules.added)
    {
      if IndexOf(line, "axiom") != -1 || IndexOf(line, "angle") != -1 || IndexOf(line, "number of derivations") != -1 {
        r := LoadSetting(line, parseFloat, parseInt);
        assert productionRules.added == old(productionRules.added);
      } else {
        r := LoadRule(line, parseFloat, parseInt);
      }
    }

    /** The rule branch of the `LoadFromFile` loop: the rule built from the
        line is added, or the build's exception propagates. */
    method LoadRule(line: string, parseFloat: string -> Parsed<real>, parseInt: string -> Parsed<Int32>)
      returns (r: Result<()>)
      requires Valid()
      requires KindOf(line) == RuleLine
      modifies productionRules
      ensures Valid()
      ensures var effect := LoadRead(line, parseFloat, parseInt);
        && (r.Ok? <==> !effect.Fail?)
        && (r.Throw? ==> effect == Fail(r.exception))
        && (r.Ok? ==> Apply(old(GrammarOf()), effect) == Ok(GrammarOf()))
        && (r.Ok? ==> effect.AddRule? && productionRules.added == old(productionRules.added) + [effect.rule])
      ensures r.Throw? ==> GrammarOf() == old(GrammarOf()) && productionRules.added == old(productionRules.added)
    {
      var productionRule := Build(line, parseFloat);
      r := AddBuilt(productionRule);
    }

    /** The three setting branches of the `LoadFromFile` loop, tested in
        this order: the trimmed value after `=` becomes the axiom, or is
        parsed into the angle or the number of derivations. */
    method LoadSetting(line: string, parseFloat: string -> Parsed<real>, parseInt: string -> Parsed<Int32>)
      returns (r: Result<()>)
      requires Valid()
      requires KindOf(line) in {AxiomSetting, AngleSetting, DerivationsSetting}
      modifies this`axiom, this`angle, this`numberOfDerivations
      ensures Valid()
      ensures var effect := LoadRead(line, parseFloat, parseInt);
        && !effect.AddRule?
        && (r.Ok? <==> !effect.Fail?)
        && (r.Throw? ==> effect == Fail(r.exception))
        && (r.Ok? ==> Apply(old(GrammarOf()), effect) == Ok(GrammarOf()))
      ensures r.Throw? ==> GrammarOf() == old(GrammarOf())
    {
      LoadReadSetting(line, parseFloat, parseInt);
      if IndexOf(line, "axiom") != -1 {
        assert KindOf(line) == AxiomSetting;
        var value := ValueOf(line);
        axiom := value;
        return Ok(());
      } else if IndexOf(line, "angle") != -1 {
        assert KindOf(line) == AngleSetting;
        var value := ValueOf(line);
        var parsed := parseFloat(value);
        r := LoadAngle(parsed);
      } else {
        assert KindOf(line) == DerivationsSetting;
        var value := ValueOf(line);
        var parsed := parseInt(value);
        r := LoadDerivations(parsed);
      }
    }

    /** The `angle` branch of the `LoadFromFile` loop once the value is
        parsed: the exception of `float.Parse`, or the new angle. */
    method LoadAngle(parsed: Parsed<real>) returns (r: Result<()>)
      requires Valid()
      modifies this`angle
      ensures Valid()
      ensures r.Ok? <==> !AngleEffect(parsed).Fail?
      ensures r.Throw? ==> AngleEffect(parsed) == Fail(r.exception) && GrammarOf() == old(GrammarOf())
      ensures r.Ok? ==> Apply(old(GrammarOf()), AngleEffect(parsed)) == Ok(GrammarOf())
    {
      if parsed.Malformed? {
        return Throw(Format);
      } else if parsed.OutOfRange? {
        return Throw(Overflow);
      }
      angle := parsed.value;
      return Ok(());
    }

    /** The `number of derivations` branch once the value is parsed: the
        exception of `int.Parse`, or the new number of derivations. */
    method LoadDerivations(parsed: Parsed<Int32>) returns (r: Result<()>)
      requires Valid()
      modifies this`numberOfDerivations
      ensures Valid()
      ensures r.Ok? <==> !DerivationsEffect(parsed).Fail?
      ensures r.Throw? ==> DerivationsEffect(parsed) == Fail(r.exception) && GrammarOf() == old(GrammarOf())
      ensures r.Ok? ==> Apply(old(GrammarOf()), DerivationsEffect(parsed)) == Ok(GrammarOf())
    {
      if parsed.Malformed? {
        return Throw(Format);
      } else if parsed.OutOfRange? {
        return Throw(Overflow);
      }
      numberOfDerivations := parsed.value;
      return Ok(());
    }

    /** The last branch of the `LoadFromFile` loop: the rule `Build` made
        of the line is added to the rule set; a `null` rule throws in `Add`
        and a rule `Build` threw on never reaches it. */
    method AddBuilt(productionRule: Built) returns (r: Result<()>)
      requires Valid()
      modifies productionRules
      ensures Valid()
      ensures var effect := AddEffect(productionRule);
        && (r.Ok? <==> !effect.Fail?)
        && (r.Throw? ==> effect == Fail(r.exception))
        && (r.Ok? ==> Apply(old(GrammarOf()), effect) == Ok(GrammarOf()))
        && (r.Ok? ==> effect.AddRule? && productionRules.added == old(productionRules.added) + [effect.rule])
      ensures r.Throw? ==> GrammarOf() == old(GrammarOf()) && productionRules.added == old(productionRules.added)
    {
      if productionRule.Null? {
        return Throw(NullReference);
      } else if productionRule.Thrown? {
        return Throw(productionRule.exception);
      }
      productionRules.Add(productionRule.production);
      return Ok(());
    }

    /** Line `i` of the `LoadFromFile` loop, after the lines before it
        applied: either one more line applied, or the first failing line
        and the exception of all of them. */
    method LoadStep(line: string, parseFloat: string -> Parsed<real>, parseInt: string -> Parsed<Int32>,
                    ghost start: Grammar, ghost added: seq<Production>, ghost effects: seq<Effect>, ghost i: int)
      returns (r: Result<()>)
      requires Valid()
      requires 0 <= i < |effects| && effects[i] == LoadRead(line, parseFloat, parseInt)
      requires ApplyAll(start, effects[..i]) == Ok(GrammarOf())
      requires productionRules.added == added + RulesOf(effects[..i])
      modifies this`axiom, this`angle, this`numberOfDerivations, productionRules
      ensures Valid()
      ensures r.Ok? ==> ApplyAll(start, effects[..i + 1]) == Ok(GrammarOf())
      ensures r.Ok? ==> productionRules.added == added + RulesOf(effects[..i + 1])
      ensures r.Throw? ==> FirstFailing(effects, i) && ApplyAll(start, effects) == Throw(r.exception)
      ensures r.Throw? ==> GrammarOf() == old(GrammarOf()) && productionRules.added == old(productionRules.added)
    {
      ApplyStep(start, effects, i, GrammarOf());
      r := LoadLine(line, parseFloat, parseInt);
      if r.Throw? {
        FirstFailureAt(start, effects, i);
        return;
      }
      Buffers.AppendAssoc(added, RulesOf(effects[..i]),
                          if effects[i].AddRule? then [effects[i].rule] else []);
    }

    /** The line loop of `LoadFromFile`: each line sets a field or adds a
        rule as it is read, so an exception leaves the fields as the lines
        before the failing one set them. */
    method LoadLines(lines: seq<string>, parseFloat: string -> Parsed<real>, parseInt: string -> Parsed<Int32>,
                     ghost effects: seq<Effect>)
      returns (r: Result<()>)
      requires Valid()
      requires |effects| == |lines|
      requires forall k {:trigger LoadRead(lines[k], parseFloat, parseInt)} ::
        0 <= k < |lines| ==> effects[k] == LoadRead(lines[k], parseFloat, parseInt)
      modifies this`axiom, this`angle, this`numberOfDerivations, productionRules
      ensures Valid()
      ensures r.Ok? ==> ApplyAll(old(GrammarOf()), effects) == Ok(GrammarOf())
      ensures r.Ok? ==> productionRules.added == old(productionRules.added) + RulesOf(effects)
      ensures r.Throw? ==> ApplyAll(old(GrammarOf()), effects) == Throw(r.exception)
      ensures r.Throw? ==>
        exists k :: && FirstFailing(effects, k)
                    && ApplyAll(old(GrammarOf()), effects[..k]) == Ok(GrammarOf())
                    && productionRules.added == old(productionRules.added) + RulesOf(effects[..k])
    {
      ghost var start := GrammarOf();
      ghost var added := productionRules.added;
      var i := 0;
      while i < |lines|
        invariant 0 <= i <= |lines|
        invariant Valid()
        invariant ApplyAll(start, effects[..i]) == Ok(GrammarOf())
        invariant productionRules.added == added + RulesOf(effects[..i])
      {
        var outcome := LoadStep(lines[i], parseFloat, parseInt, start, added, effects, i);
        if outcome.Throw? {
          return outcome;
        }
        i := i + 1;
      }
      assert effects[..i] == effects;
      return Ok(());
    }

    /** `LoadFromFile` on the lines of the file: the line loop, then a
        grammar whose probabilities do not add up throws after every line
        was applied. */
    method LoadFromFile(lines: seq<string>, parseFloat: string -> Parsed<real>, parseInt: string -> Parsed<Int32>)
      returns (r: Result<()>)
      requires Valid()
      modifies this`axiom, this`angle, this`numberOfDerivations, productionRules
      ensures Valid()
      ensures r.Ok? <==> Loaded(old(GrammarOf()), lines, parseFloat, parseInt).Ok?
      ensures r.Throw? ==> Loaded(old(GrammarOf()), lines, parseFloat, parseInt) == Throw(r.exception)
      ensures var effects := LoadReads(lines, parseFloat, parseInt);
        ApplyAll(old(GrammarOf()), effects).Ok? ==>
          && GrammarOf() == ApplyAll(old(GrammarOf()), effects).value
          && productionRules.added == old(productionRules.added) + RulesOf(effects)
      ensures var effects := LoadReads(lines, parseFloat, parseInt);
        ApplyAll(old(GrammarOf()), effects).Throw? ==>
          exists k :: && FirstFailing(effects, k)
                      && ApplyAll(old(GrammarOf()), effects[..k]) == Ok(GrammarOf())
                      && productionRules.added == old(productionRules.added) + RulesOf(effects[..k])
    {
      r := LoadLines(lines, parseFloat, parseInt, LoadReads(lines, parseFloat, parseInt));
      if r.Throw? {
        return;
      }
      var ok := productionRules.CheckProbabilities();
      if !ok {
        return Throw(InvalidGrammar);
      }
      return Ok(());
    }

    /** `Derive`: `_moduleString` starts as the axiom and is replaced by
        each completed generation, `Math.Max(1, numberOfDerivations)` of
        them. The unseen `ProductionRules.Get` is taken to pick as
        `ProductionRuleSet.Match` does, drawing `chances(i, j)` for the
        symbol at position `j` of generation `i`. An exception leaves the
        last completed generation in place. */
    method Derive(chances: (nat, nat) -> real) returns (r: Result<()>)
      requires Valid()
      modifies this`moduleString
      ensures Valid()
      ensures var derived := Deriver.Derivation(productionRules.lookupTable, Deriver.OwnProbability, axiom,
                                                numberOfDerivations, chances);
        && (r.Ok? <==> derived.Ok?)
        && (r.Ok? ==> moduleString == derived.value)
        && (r.Throw? ==> derived == Throw(r.exception))
      ensures r.Throw? ==>
        exists k :: 0 <= k < AtLeastOne(numberOfDerivations) &&
          Deriver.Generations(productionRules.lookupTable, Deriver.OwnProbability, axiom, k, chances) ==
            Ok(moduleString)
    {
      var store := Deriver.RuleSet(productionRules);
      moduleString := axiom;
      var i := 0;
      while i < AtLeastOne(numberOfDerivations)
        invariant 0 <= i <= AtLeastOne(numberOfDerivations)
        invariant Deriver.Generations(productionRules.lookupTable, Deriver.OwnProbability, axiom, i, chances) ==
          Ok(moduleString)
      {
        var newModuleString := Deriver.RewriteGeneration(moduleString, store, Deriver.DrawsOf(chances, i));
        if newModuleString.Throw? {
          Deriver.GenerationsAbort(productionRules.lookupTable, Deriver.OwnProbability, axiom, chances,
                                   i + 1, AtLeastOne(numberOfDerivations));
          return Throw(newModuleString.exception);
        }
        moduleString := newModuleString.value;
        i := i + 1;
      }
      return Ok(());
    }

    /** `CreateNewChunk`: the mesh becomes a child of the chunks object. */
    method CreateNewChunk(mesh: MeshData)
      modifies this`chunks
      ensures chunks == old(chunks) + [mesh]
    {
      chunks := chunks + [mesh];
    }

    /** `CreateSegment`: the cylinder of the nesting level, placed on the
        turtle, goes behind the current mesh, which is first handed to the
        scene as a chunk when the cylinder would take it past 65000
        vertices. */
    method CreateSegment(ops: Ops, cylinder: real -> MeshData, zero: Vector3,
                         turtle: Turtle, nestingLevel: nat, currentMesh: MeshData)
      returns (mesh: MeshData)
      requires WellFormed(currentMesh) && WellFormed(cylinder(Thickness(segmentWidth, narrowBranches, nestingLevel)))
      modifies this`chunks
      ensures Packing(chunks, mesh) ==
        Place(Packing(old(chunks), currentMesh),
              cylinder(Thickness(segmentWidth, narrowBranches, nestingLevel)),
              OnSegment(ops, turtle, segmentWidth, segmentHeight))
      ensures WellFormed(mesh)
    {
      var thickness := Thickness(segmentWidth, narrowBranches, nestingLevel);
      var segment := cylinder(thickness);
      mesh := currentMesh;
      if |mesh.vertices| + |segment.vertices| > VertexLimit {
        CreateNewChunk(mesh);
        mesh := EmptyMesh;
      }
      mesh := AppendSegment(mesh, segment, OnSegment(ops, turtle, segmentWidth, segmentHeight), zero);
    }

    /** `AddFoliageAt`: two rows of leaves, 6 and then 3, hung from the
        turtle. */
    method AddFoliageAt(turtle: Turtle)
      modifies this`leaves
      ensures leaves == old(leaves) + Foliage(turtle, LeafRows)
    {
      var i := 0;
      while i < 2
        invariant 0 <= i <= 2
        invariant leaves == old(leaves) + Foliage(turtle, LeafRows[..i])
      {
        var j := 0;
        while j < (2 - i) * 3
          invariant 0 <= j <= (2 - i) * 3 == LeafRows[i]
          invariant leaves == old(leaves) + Foliage(turtle, LeafRows[..i]) +
            seq(j, k requires 0 <= k < j => Leaf(turtle, i, k))
          {
          leaves := leaves + [Leaf(turtle, i, j)];
          j := j + 1;
        }
        assert LeafRows[..i + 1][..i] == LeafRows[..i];
        i := i + 1;
      }
      assert LeafRows[..2] == LeafRows;
    }

    /** One pass of the opcode switch in `Interpret`: what the symbol does
        to the turtle, the stack, the current mesh, the chunks and the
        leaves is what painting it does to the canvas. */
    method Execute(ops: Ops, cylinder: real -> MeshData, zero: Vector3, symbol: char,
                   current: Turtle, stack: seq<Turtle>, currentMesh: MeshData, ghost walk: Walk, ghost p: Painter)
      returns (r: Result<()>, current': Turtle, stack': seq<Turtle>, currentMesh': MeshData, ghost walk': Walk)
      requires p == PainterOf(ops, cylinder)
      requires walk.current == current && walk.stack == stack
      requires forall thickness: real :: WellFormed(cylinder(thickness))
      requires WellFormed(currentMesh)
      modifies this`chunks, this`leaves
      ensures var painted := Paint(p, Canvas(walk, Packing(old(chunks), currentMesh), old(leaves)), symbol);
        && (r.Ok? <==> painted.Ok?)
        && (r.Ok? ==> painted.value == Canvas(walk', Packing(chunks, currentMesh'), leaves))
        && (r.Throw? ==> painted == Throw(r.exception))
      ensures walk'.current == current' && walk'.stack == stack' && WellFormed(currentMesh')
    {
      r, current', stack', currentMesh', walk' := Ok(()), current, stack, currentMesh, walk;
      if symbol == 'F' {
        current' := Forward(ops, current);
        currentMesh' := CreateSegment(ops, cylinder, zero, current', |stack|, currentMesh);
        walk' := walk.(current := current', segments := walk.segments + [Placement(current', |stack|)]);
      } else if symbol == '+' {
        current' := RotateZ(ops, current, angle);
        walk' := walk.(current := current');
      } else if symbol == '-' {
        current' := RotateZ(ops, current, -angle);
        walk' := walk.(current := current');
      } else if symbol == '&' {
        current' := RotateX(ops, current, angle);
        walk' := walk.(current := current');
      } else if symbol == '^' {
        current' := RotateX(ops, current, -angle);
        walk' := walk.(current := current');
      } else if symbol == '\\' {
        current' := RotateY(ops, current, angle);
        walk' := walk.(current := current');
      } else if symbol == '/' {
        current' := RotateY(ops, current, -angle);
        walk' := walk.(current := current');
      } else if symbol == '|' {
        current' := RotateZ(ops, current, 180.0);
        walk' := walk.(current := current');
      } else if symbol == '[' {
        stack' := stack + [current];
        walk' := walk.(stack := stack');
      } else if symbol == ']' {
        if useFoliage {
          AddFoliageAt(current);
        }
        if stack == [] {
          return Throw(InvalidOperation), current', stack', currentMesh', walk';
        }
        current', stack' := stack[|stack| - 1], stack[..|stack| - 1];
        walk' := Walk(current', stack', walk.segments, walk.branchEnds + [current]);
      }
    }

    /** The opcode loop of `Interpret` from the cleared scene: the symbols
        of `_moduleString` painted in order on the blank canvas, the mesh
        being built returned beside the chunks and leaves already placed. */
    method RunOpcodes(ops: Ops, cylinder: real -> MeshData, zero: Vector3)
      returns (r: Result<()>, currentMesh: MeshData)
      requires forall thickness: real :: WellFormed(cylinder(thickness))
      requires chunks == [] && leaves == []
      modifies this`chunks, this`leaves
      ensures var p := PainterOf(ops, cylinder);
        var painted := PaintAll(p, Drawing.Blank(p, segmentHeight), moduleString);
        && (r.Ok? <==> painted.Ok?)
        && (r.Ok? ==> painted.value.packing == Packing(chunks, currentMesh) && painted.value.leaves == leaves)
        && (r.Throw? ==> painted == Throw(r.exception))
    {
      ghost var p := PainterOf(ops, cylinder);
      ghost var blank := Drawing.Blank(p, segmentHeight);
      currentMesh := EmptyMesh;
      var current := Start(ops, segmentHeight);
      var stack: seq<Turtle> := [];
      ghost var walk := blank.walk;
      var i := 0;
      while i < |moduleString|
        invariant 0 <= i <= |moduleString|
        invariant PaintAll(p, blank, moduleString[..i]) == Ok(Canvas(walk, Packing(chunks, currentMesh), leaves))
        invariant walk.current == current && walk.stack == stack && WellFormed(currentMesh)
      {
        PaintAllSnoc(p, blank, moduleString, i, Canvas(walk, Packing(chunks, currentMesh), leaves));
        var outcome;
        outcome, current, stack, currentMesh, walk := Execute(ops, cylinder, zero, moduleString[i], current, stack, currentMesh, walk, p);
        if outcome.Throw? {
          PaintAllAbort(p, blank, moduleString, i + 1);
          return outcome, currentMesh;
        }
        i := i + 1;
      }
      assert moduleString[..i] == moduleString;
      return Ok(()), currentMesh;
    }

    /** `Interpret`: the scene is cleared, the opcode loop runs over
        `_moduleString` and the last mesh becomes the final chunk. A `]` on
        an empty stack throws after its leaves were placed. */
    method Interpret(ops: Ops, cylinder: real -> MeshData, zero: Vector3)
      returns (r: Result<()>)
      requires forall thickness: real :: WellFormed(cylinder(thickness))
      modifies this`chunks, this`leaves
      ensures var picture := Picture(PainterOf(ops, cylinder), segmentHeight, moduleString);
        && (r.Ok? <==> picture.Ok?)
        && (r.Ok? ==> picture.value == Output(chunks, leaves))
        && (r.Throw? ==> picture == Throw(r.exception))
    {
      chunks, leaves := [], [];
      var currentMesh;
      r, currentMesh := RunOpcodes(ops, cylinder, zero);
      if r.Throw? {
        return;
      }
      CreateNewChunk(currentMesh);
    }
  }
}
