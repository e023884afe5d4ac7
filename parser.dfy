/** LSystemParser.cs: the grammar text, one setting or rule per line, read
    into an axiom, an angle, a number of derivations and a rule table. */
module Parser {
  import opened Runtime
  import opened Text
  import opened Productions
  import opened ProductionRules
  import ProductionMatcher

  /** The four outputs of `Parse`. */
  datatype Grammar = Grammar(axiom: string, angle: real, derivations: Int32, productions: Table)

  /** The values the outputs are set to before the first line is read. */
  const Initial := Grammar("", 0.0, 0, map[])

  /** How a line is dispatched: blank, a `//` comment, a line that is just
      `/` (reading its second character fails), one of the three settings
      (tested in this order by substring), or else a rule. */
  datatype LineKind = Blank | Comment | LoneSlash | AxiomSetting | AngleSetting | DerivationsSetting | RuleLine

  function KindOf(line: string): LineKind {
    if |line| == 0 then Blank
    else if line[0] == '/' && |line| == 1 then LoneSlash
    else if line[0] == '/' && line[1] == '/' then Comment
    else if Contains(line, "axiom") then AxiomSetting
    else if Contains(line, "angle") then AngleSetting
    else if Contains(line, "number of derivations") then DerivationsSetting
    else RuleLine
  }

  /** The value of a setting line: `line.Substring(line.IndexOf("=") + 1)`
      trimmed, where `IndexOf` gives -1 when there is no `=` and the
      substring is then the whole line. */
  function ValueOf(line: string): string {
    var k := IndexOf(line, "=");
    if k == -1 then Trim(line) else Trim(line[k + 1..])
  }

  /** The value is the trimmed text after the first `=`, or the whole line
      trimmed when it has none. */
  lemma ValueOfMeaning(line: string)
    ensures '=' in line ==> ValueOf(line) == Trim(After(line, '='))
    ensures '=' !in line ==> ValueOf(line) == Trim(line)
  {
    IndexOfChar(line, '=');
    assert "=" == ['='];
  }

  /** What one line does to the outputs. */
  datatype Effect =
    | Skip
    | Fail(exception: Exception)
    | SetAxiom(axiom: string)
    | SetAngle(angle: real)
    | SetDerivations(derivations: Int32)
    | AddRule(rule: Production)

  /** The effect of a line as the loop body dispatches it. `parseFloat`
      and `parseInt` stand for `float.Parse` and `int.Parse`, which throw a
      `FormatException` for a text that is not a number and an
      `OverflowException` for a number out of the range of the type. A rule
      line that `Build` rejects (not exactly one `=`) is skipped. */
  function Read(line: string, parseFloat: string -> Parsed<real>, parseInt: string -> Parsed<Int32>): (e: Effect)
    ensures e.Fail? ==> e.exception in {IndexOutOfRange, ArgumentOutOfRange, Format, Overflow}
  {
    match KindOf(line)
    case Blank => Skip
    case Comment => Skip
    case LoneSlash => Fail(IndexOutOfRange)
    case AxiomSetting => SetAxiom(ValueOf(line))
    case AngleSetting => AngleEffect(parseFloat(ValueOf(line)))
    case DerivationsSetting => DerivationsEffect(parseInt(ValueOf(line)))
    case RuleLine =>
      (match Build(line, parseFloat)
       case Null => Skip
       case Thrown(e) => Fail(e)
       case Rule(p) => AddRule(p))
  }

  /** `angle = float.Parse(value)`: the parse's exception, or the angle. */
  function AngleEffect(parsed: Parsed<real>): (e: Effect)
    ensures e.Fail? ==> e.exception in {Format, Overflow}
  {
    match parsed
    case Malformed => Fail(Format)
    case OutOfRange => Fail(Overflow)
    case Number(a) => SetAngle(a)
  }

  /** `derivations = int.Parse(value)`: the parse's exception, or the
      number. */
  function DerivationsEffect(parsed: Parsed<Int32>): (e: Effect)
    ensures e.Fail? ==> e.exception in {Format, Overflow}
  {
    match parsed
    case Malformed => Fail(Format)
    case OutOfRange => Fail(Overflow)
    case Number(n) => SetDerivations(n)
  }

  /** The parser trims each line first; its test for a line that is a lone
      carriage return is kept although trimming has already removed it. */
  function ParserRead(rawLine: string, parseFloat: string -> Parsed<real>, parseInt: string -> Parsed<Int32>): Effect {
    var line := Trim(rawLine);
    if |line| == 1 && line[0] == '\r' then Skip else Read(line, parseFloat, parseInt)
  }

  /** The carriage-return test never fires: a trimmed line does not start
      with white space. */
  lemma CarriageReturnTestDead(rawLine: string, parseFloat: string -> Parsed<real>, parseInt: string -> Parsed<Int32>)
    ensures ParserRead(rawLine, parseFloat, parseInt) == Read(Trim(rawLine), parseFloat, parseInt)
  {
  }

  /** An effect applied to the outputs read so far. */
  function Apply(g: Grammar, e: Effect): Result<Grammar> {
    match e
    case Skip => Ok(g)
    case Fail(x) => Throw(x)
    case SetAxiom(a) => Ok(g.(axiom := a))
    case SetAngle(a) => Ok(g.(angle := a))
    case SetDerivations(n) => Ok(g.(derivations := n))
    case AddRule(p) => Ok(g.(productions := Insert(g.productions, p)))
  }

  /** The effects of the lines, one per line. */
  function Reads(lines: seq<string>, parseFloat: string -> Parsed<real>, parseInt: string -> Parsed<Int32>): (r: seq<Effect>)
    ensures |r| == |lines| && forall i :: 0 <= i < |lines| ==> r[i] == ParserRead(lines[i], parseFloat, parseInt)
  {
    seq(|lines|, i requires 0 <= i < |lines| => ParserRead(lines[i], parseFloat, parseInt))
  }

  /** The effects applied in order from the outputs `start`, stopping at
      the first exception. */
  function ApplyAll(start: Grammar, effects: seq<Effect>): Result<Grammar> {
    if effects == [] then Ok(start)
    else
      match ApplyAll(start, effects[..|effects| - 1])
      case Throw(e) => Throw(e)
      case Ok(g) => Apply(g, effects[|effects| - 1])
  }

  /** `Parse(content, ...)`: the lines of `content` read in order, then the
      probability check, whose failure is the `InvalidGrammar` exception. */
  function ParseText(content: string, parseFloat: string -> Parsed<real>,
                     parseInt: string -> Parsed<Int32>): Result<Grammar>
  {
    match ApplyAll(Initial, Reads(Split(content, '\n'), parseFloat, parseInt))
    case Throw(e) => Throw(e)
    case Ok(g) => if ProbabilitiesValid(g.productions) then Ok(g) else Throw(InvalidGrammar)
  }

  method Parse(content: string, parseFloat: string -> Parsed<real>, parseInt: string -> Parsed<Int32>)
    returns (r: Result<Grammar>)
    ensures r == ParseText(content, parseFloat, parseInt)
  {
    var g := Initial;
    var lines := Split(content, '\n');
    ghost var effects := Reads(lines, parseFloat, parseInt);
    var i := 0;
    while i < |lines|
      invariant 0 <= i <= |lines|
      invariant ApplyAll(Initial, effects[..i]) == Ok(g)
    {
      ApplyStep(Initial, effects, i, g);
      var step := Apply(g, ParserRead(lines[i], parseFloat, parseInt));
      if step.Throw? {
        ApplyAllAbort(Initial, effects, i + 1);
        return Throw(step.exception);
      }
      g := step.value;
      i := i + 1;
    }
    assert effects[..i] == effects;
    var ok := ProductionMatcher.CheckProbabilities(g.productions);
    if !ok {
      return Throw(InvalidGrammar);
    }
    return Ok(g);
  }

  /** Once a prefix of the effects throws, all of them throw the same. */
  lemma {:induction false} ApplyAllAbort(start: Grammar, effects: seq<Effect>, k: nat)
    requires k <= |effects| && ApplyAll(start, effects[..k]).Throw?
    ensures ApplyAll(start, effects) == ApplyAll(start, effects[..k])
    decreases |effects| - k
  {
    if k < |effects| {
      assert effects[..k + 1][..k] == effects[..k];
      ApplyAllAbort(start, effects, k + 1);
    } else {
      assert effects[..k] == effects;
    }
  }

  /** Effect `i` is the first that fails. */
  predicate FirstFailing(effects: seq<Effect>, i: int) {
    && 0 <= i < |effects|
    && effects[i].Fail?
    && forall j :: 0 <= j < i ==> !effects[j].Fail?
  }

  /** The lines throw exactly when one of them fails, and then with the
      exception of the first that does. */
  lemma {:induction false} ApplyAllFailure(start: Grammar, effects: seq<Effect>)
    ensures ApplyAll(start, effects).Ok? <==> forall i :: 0 <= i < |effects| ==> !effects[i].Fail?
    ensures ApplyAll(start, effects).Throw? ==>
      exists i :: FirstFailing(effects, i) && effects[i].exception == ApplyAll(start, effects).exception
  {
    if effects != [] {
      var init := effects[..|effects| - 1];
      var last := effects[|effects| - 1];
      ApplyAllFailure(start, init);
      assert forall i :: 0 <= i < |init| ==> init[i] == effects[i];
      match ApplyAll(start, init)
      case Throw(e) =>
        var i :| FirstFailing(init, i) && init[i].exception == e;
        assert FirstFailing(effects, i);
      case Ok(g) =>
        if last.Fail? {
          assert FirstFailing(effects, |effects| - 1);
        }
    }
  }

  /** The rules the effects add, in order. */
  function RulesOf(effects: seq<Effect>): seq<Production> {
    if effects == [] then []
    else
      var last := effects[|effects| - 1];
      RulesOf(effects[..|effects| - 1]) + (if last.AddRule? then [last.rule] else [])
  }

  /** One more effect after a prefix that applied to `g`. */
  lemma ApplyStep(start: Grammar, effects: seq<Effect>, i: int, g: Grammar)
    requires 0 <= i < |effects| && ApplyAll(start, effects[..i]) == Ok(g)
    ensures ApplyAll(start, effects[..i + 1]) == Apply(g, effects[i])
    ensures RulesOf(effects[..i + 1]) ==
      RulesOf(effects[..i]) + (if effects[i].AddRule? then [effects[i].rule] else [])
  {
    assert effects[..i + 1][..i] == effects[..i];
  }

  /** A failing effect after a prefix that applies is the first failing
      one, and all the effects throw its exception. */
  lemma FirstFailureAt(start: Grammar, effects: seq<Effect>, i: int)
    requires 0 <= i < |effects| && ApplyAll(start, effects[..i]).Ok? && effects[i].Fail?
    ensures FirstFailing(effects, i)
    ensures ApplyAll(start, effects) == Throw(effects[i].exception)
  {
    ApplyAllFailure(start, effects[..i]);
    assert forall j :: 0 <= j < i ==> effects[..i][j] == effects[j];
    assert effects[..i + 1][..i] == effects[..i];
    ApplyAllAbort(start, effects, i + 1);
  }

  /** The three settings. */
  datatype Setting = Axiom | Angle | Derivations

  predicate Sets(e: Effect, setting: Setting) {
    match setting
    case Axiom => e.SetAxiom?
    case Angle => e.SetAngle?
    case Derivations => e.SetDerivations?
  }

  /** The last effect that sets `setting`, if any. */
  function Last(effects: seq<Effect>, setting: Setting): (r: Option<Effect>)
    ensures r.Some? ==> Sets(r.value, setting)
  {
    if effects == [] then None
    else if Sets(effects[|effects| - 1], setting) then Some(effects[|effects| - 1])
    else Last(effects[..|effects| - 1], setting)
  }

  /** What a completed read holds: when the rule table started as the
      grouping of `added`, it groups `added` followed by the rules of the
      rule lines in line order, and each setting is the one its last line
      sets (its starting value when no line sets it). */
  lemma ApplyAllContents(start: Grammar, added: seq<Production>, effects: seq<Effect>)
    requires start.productions == Group(added)
    requires ApplyAll(start, effects).Ok?
    ensures var g := ApplyAll(start, effects).value;
      && g.productions == Group(added + RulesOf(effects))
      && g.axiom == (match Last(effects, Axiom) case None => start.axiom case Some(e) => e.axiom)
      && g.angle == (match Last(effects, Angle) case None => start.angle case Some(e) => e.angle)
      && g.derivations == (match Last(effects, Derivations) case None => start.derivations case Some(e) => e.derivations)
  {
    ApplyAllRules(start, added, effects);
    ApplyAllSettings(start, effects);
  }

  /** The rule table after the lines groups `added` followed by the rules
      of the rule lines, in line order. */
  lemma {:induction false} ApplyAllRules(start: Grammar, added: seq<Production>, effects: seq<Effect>)
    requires start.productions == Group(added)
    requires ApplyAll(start, effects).Ok?
    ensures ApplyAll(start, effects).value.productions == Group(added + RulesOf(effects))
  {
    if effects != [] {
      var init := effects[..|effects| - 1];
      var last := effects[|effects| - 1];
      assert ApplyAll(start, init).Ok?;
      ApplyAllRules(start, added, init);
      var g := ApplyAll(start, init).value;
      assert ApplyAll(start, effects) == Apply(g, last);
      ApplyFields(g, last);
      var rs := RulesOf(init);
      if last.AddRule? {
        assert RulesOf(effects) == rs + [last.rule];
        var all := added + rs + [last.rule];
        assert added + RulesOf(effects) == all;
        assert all[..|all| - 1] == added + rs;
        assert Group(all) == Insert(Group(added + rs), last.rule);
      } else {
        assert RulesOf(effects) == rs + [];
        assert rs + [] == rs;
      }
    } else {
      assert added + RulesOf(effects) == added;
    }
  }

  /** Each setting after the lines is the one its last line sets, or its
      starting value when no line sets it. */
  lemma {:induction false} ApplyAllSettings(start: Grammar, effects: seq<Effect>)
    requires ApplyAll(start, effects).Ok?
    ensures var g := ApplyAll(start, effects).value;
      && g.axiom == (match Last(effects, Axiom) case None => start.axiom case Some(e) => e.axiom)
      && g.angle == (match Last(effects, Angle) case None => start.angle case Some(e) => e.angle)
      && g.derivations == (match Last(effects, Derivations) case None => start.derivations case Some(e) => e.derivations)
  {
    if effects != [] {
      var init := effects[..|effects| - 1];
      var last := effects[|effects| - 1];
      assert ApplyAll(start, init).Ok?;
      ApplyAllSettings(start, init);
      var g := ApplyAll(start, init).value;
      assert ApplyAll(start, effects) == Apply(g, last);
      ApplyFields(g, last);
      assert Last(effects, Axiom) == (if last.SetAxiom? then Some(last) else Last(init, Axiom));
      assert Last(effects, Angle) == (if last.SetAngle? then Some(last) else Last(init, Angle));
      assert Last(effects, Derivations) == (if last.SetDerivations? then Some(last) else Last(init, Derivations));
    }
  }

  /** What one effect does to each output. */
  lemma ApplyFields(g: Grammar, e: Effect)
    requires Apply(g, e).Ok?
    ensures var h := Apply(g, e).value;
      && h.productions == (if e.AddRule? then Insert(g.productions, e.rule) else g.productions)
      && h.axiom == (if e.SetAxiom? then e.axiom else g.axiom)
      && h.angle == (if e.SetAngle? then e.angle else g.angle)
      && h.derivations == (if e.SetDerivations? then e.derivations else g.derivations)
  {
  }

  /** A text that reads without an exception yields a table whose every
      predecessor has a non-empty list of its own rules summing to 1. */
  lemma ParseTextValid(content: string, parseFloat: string -> Parsed<real>, parseInt: string -> Parsed<Int32>)
    requires ParseText(content, parseFloat, parseInt).Ok?
    ensures var t := ParseText(content, parseFloat, parseInt).value.productions;
      && ProbabilitiesValid(t)
      && forall m :: m in t ==> t[m] != [] && forall i :: 0 <= i < |t[m]| ==> t[m][i].predecessor == m
  {
    var effects := Reads(Split(content, '\n'), parseFloat, parseInt);
    ApplyAllContents(Initial, [], effects);
    assert [] + RulesOf(effects) == RulesOf(effects);
    var rules := RulesOf(effects);
    forall m | m in Group(rules)
      ensures Group(rules)[m] != [] && forall i :: 0 <= i < |Group(rules)[m]| ==> Group(rules)[m][i].predecessor == m
    {
      GroupIsFilter(rules, m);
      RulesForPredecessor(rules, m);
    }
  }

  /** A line that would be a rule but does not hold exactly one `=` is
      skipped without an error. */
  lemma MalformedRuleLineSkipped(g: Grammar, rawLine: string, parseFloat: string -> Parsed<real>,
                                 parseInt: string -> Parsed<Int32>)
    requires KindOf(Trim(rawLine)) == RuleLine && Count(Trim(rawLine), '=') != 1
    ensures Apply(g, ParserRead(rawLine, parseFloat, parseInt)) == Ok(g)
  {
  }

  /** A line that is `/` after trimming aborts the read. */
  lemma LoneSlashThrows(g: Grammar, rawLine: string, parseFloat: string -> Parsed<real>,
                        parseInt: string -> Parsed<Int32>)
    requires Trim(rawLine) == "/"
    ensures Apply(g, ParserRead(rawLine, parseFloat, parseInt)) == Throw(IndexOutOfRange)
  {
  }
}
