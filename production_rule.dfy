/** ProductionRule.cs: `Build` turns a rule line `P = (p)S` into a rule. */
module ProductionRules {
  import opened Runtime
  import opened Text
  import opened Productions

  /** What `Build` gives back: null, a rule, or the exception it throws. */
  datatype Built = Null | Rule(production: Production) | Thrown(exception: Exception)

  /** The text of `s` before the first `c`, or all of `s`. */
  function Before(s: string, c: char): (r: string)
    ensures c !in r && |r| <= |s| && r == s[..|r|]
    ensures c in s ==> s[|r|] == c
    ensures c !in s ==> r == s
  {
    if c in s then s[..FirstIndex(s, c)] else s
  }

  /** The text of `s` after the first `c`: `s` is the text before the
      first `c`, that `c`, then the result. */
  function After(s: string, c: char): (r: string)
    requires c in s
    ensures s == Before(s, c) + [c] + r
  {
    s[FirstIndex(s, c) + 1..]
  }

  /** The first two pieces of a split are the text before the separator and
      the text between the first and the second separator. */
  lemma SplitPieces(s: string, c: char)
    ensures Split(s, c)[0] == Before(s, c)
    ensures c in s ==> |Split(s, c)| >= 2 && Split(s, c)[1] == Before(After(s, c), c)
  {
    if c in s {
      var rest := After(s, c);
      assert Split(s, c) == [Before(s, c)] + Split(rest, c);
      SplitPieces(rest, c);
    }
  }

  /** `ProductionRule.Build(line)`: split on `=`, the trimmed left side is
      the predecessor; the trimmed right side is split on `)`, its first
      piece minus its first character is the probability text and its
      second piece the successor. `parseFloat` stands for `float.Parse`:
      a malformed number throws a `FormatException`, one outside the range
      of `float` an `OverflowException`. */
  function Build(line: string, parseFloat: string -> Parsed<real>): (r: Built)
    ensures r.Null? <==> Count(line, '=') != 1
    ensures r.Thrown? ==> r.exception in {ArgumentOutOfRange, IndexOutOfRange, Format, Overflow}
  {
    var tokens := Split(line, '=');
    if |tokens| != 2 then Null
    else
      var predecessor := Trim(tokens[0]);
      var pieces := Split(Trim(tokens[1]), ')');
      if |pieces[0]| == 0 then Thrown(ArgumentOutOfRange)
      else if |pieces| < 2 then Thrown(IndexOutOfRange)
      else
        match parseFloat(pieces[0][1..])
        case Malformed => Thrown(Format)
        case OutOfRange => Thrown(Overflow)
        case Number(p) => Rule(Production(predecessor, pieces[1], p))
  }

  /** The trimmed text after the `=` of a rule line. */
  function RightSide(line: string): string
    requires '=' in line
  {
    Trim(After(line, '='))
  }

  /** The probability text of a right side: from its second character up
      to its first `)`. */
  function ProbabilityText(right: string): string
    requires ')' in right && right[0] != ')'
  {
    right[1..FirstIndex(right, ')')]
  }

  /** A line with exactly one `=` splits into the text before it and the
      text after it. */
  lemma {:induction false} SplitOnce(line: string)
    requires Count(line, '=') == 1
    ensures '=' in line
    ensures Split(line, '=') == [Before(line, '='), After(line, '=')]
  {
    CountAbsent(line, '=');
    var k := FirstIndex(line, '=');
    assert line == line[..k] + [line[k]] + line[k + 1..];
    CountAppend(line[..k] + [line[k]], line[k + 1..], '=');
    CountAppend(line[..k], [line[k]], '=');
    CountAbsent(line[..k], '=');
    CountAbsent(line[k + 1..], '=');
  }

  /** What `Build` does, stated on the line itself: null unless the line
      holds exactly one `=`; otherwise, with `right` the trimmed text after
      the `=`, an `ArgumentOutOfRange` when `right` is empty or starts with
      `)`, an `IndexOutOfRange` when it holds no `)`, a `Format` error when
      the probability text is not a number and an `Overflow` error when it
      is one outside the range of `float`, and else the rule whose
      predecessor is the trimmed text before the `=` and whose successor is
      the text between the first and the second `)` (anything after the
      second `)` is dropped). */
  lemma BuildMeaning(line: string, parseFloat: string -> Parsed<real>)
    requires Count(line, '=') == 1
    ensures '=' in line
    ensures
      var right := RightSide(line);
      var r := Build(line, parseFloat);
      && (r == Thrown(ArgumentOutOfRange) <==> right == [] || right[0] == ')')
      && (r == Thrown(IndexOutOfRange) <==> right != [] && right[0] != ')' && ')' !in right)
      && (r == Thrown(Format) <==>
            ')' in right && right[0] != ')' && parseFloat(ProbabilityText(right)) == Malformed)
      && (r == Thrown(Overflow) <==>
            ')' in right && right[0] != ')' && parseFloat(ProbabilityText(right)) == OutOfRange)
      && (r.Rule? <==>
            ')' in right && right[0] != ')' && parseFloat(ProbabilityText(right)).Number?)
      && (r.Rule? ==>
            && r.production.predecessor == Trim(Before(line, '='))
            && Number(r.production.probability) == parseFloat(ProbabilityText(right))
            && r.production.successor == Before(After(right, ')'), ')'))
  {
    SplitOnce(line);
    var right := RightSide(line);
    SplitPieces(right, ')');
    CountAbsent(right, ')');
    var pieces := Split(right, ')');
    var first := pieces[0];
    assert Trim(Split(line, '=')[1]) == right;
    assert |pieces| < 2 <==> ')' !in right;
    assert Build(line, parseFloat) ==
      if |first| == 0 then Thrown(ArgumentOutOfRange)
      else if |pieces| < 2 then Thrown(IndexOutOfRange)
      else match parseFloat(first[1..])
        case Malformed => Thrown(Format)
        case OutOfRange => Thrown(Overflow)
        case Number(p) => Rule(Production(Trim(Before(line, '=')), pieces[1], p));
    assert first == [] <==> right == [] || right[0] == ')' by {
      if right != [] && right[0] == ')' {
        assert FirstIndex(right, ')') == 0;
      }
    }
    if ')' in right && right[0] != ')' {
      assert first[1..] == ProbabilityText(right);
    }
  }
}
