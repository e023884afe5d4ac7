/** The turtle of LSystemInterpreter.cs and LSystem.cs (the two declare the
    same private struct) and the opcode loop both `Interpret` methods run
    over the module string, stated once on values: the pose, the branch
    stack, the segments emitted with their nesting depth and the poses at
    which branches end. */
module Turtles {
  import opened Runtime
  import opened Text
  import opened Geometry

  datatype Turtle = Turtle(direction: Quaternion, position: Vector3, step: Vector3)

  /** `Forward`: the position moves by the rotated step. */
  function Forward(ops: Ops, t: Turtle): (r: Turtle)
    ensures r.direction == t.direction && r.step == t.step
    ensures r.position == ops.add(t.position, ops.rotate(t.direction, t.step))
  {
    t.(position := ops.add(t.position, ops.rotate(t.direction, t.step)))
  }

  /** `RotateX`, `RotateY`, `RotateZ`: the direction is right-multiplied
      by an Euler rotation about one axis. */
  function RotateX(ops: Ops, t: Turtle, angle: real): Turtle {
    t.(direction := ops.compose(t.direction, ops.euler(angle, 0.0, 0.0)))
  }

  function RotateY(ops: Ops, t: Turtle, angle: real): Turtle {
    t.(direction := ops.compose(t.direction, ops.euler(0.0, angle, 0.0)))
  }

  function RotateZ(ops: Ops, t: Turtle, angle: real): Turtle {
    t.(direction := ops.compose(t.direction, ops.euler(0.0, 0.0, angle)))
  }

  /** The turtle both interpreters start from: no rotation, at the origin,
      stepping `segmentHeight` along y. */
  function Start(ops: Ops, segmentHeight: real): Turtle {
    Turtle(ops.identity, ops.vector(0.0, 0.0, 0.0), ops.vector(0.0, segmentHeight, 0.0))
  }

  /** `LSystemInterpreter` emits a segment and then moves; `LSystem` moves
      and then emits. */
  datatype Order = EmitThenAdvance | AdvanceThenEmit

  /** The pose an `F` hands to `CreateSegment`: the pose before the move
      or the pose after it. */
  function Emitted(ops: Ops, order: Order, t: Turtle): Turtle {
    if order == EmitThenAdvance then t else Forward(ops, t)
  }

  /** A segment event: the pose passed to `CreateSegment` and `stack.Count`. */
  datatype Placement = Placement(turtle: Turtle, depth: nat)

  /** The loop state: the current pose, the stack (top last), the segments
      emitted and the poses current at each `]`, before the pop. */
  datatype Walk = Walk(current: Turtle, stack: seq<Turtle>, segments: seq<Placement>, branchEnds: seq<Turtle>)

  function Begin(ops: Ops, segmentHeight: real): Walk {
    Walk(Start(ops, segmentHeight), [], [], [])
  }

  /** The symbols the loop acts on. */
  predicate IsOpcode(c: char) {
    c in "F+-&^\\/|[]"
  }

  predicate IsRotation(c: char) {
    c in "+-&^\\/|"
  }

  /** One symbol. A `]` on an empty stack is `Stack.Pop` throwing. */
  function Step(ops: Ops, angle: real, order: Order, w: Walk, c: char): Result<Walk> {
    var t := w.current;
    if c == 'F' then
      Ok(w.(current := Forward(ops, t), segments := w.segments + [Placement(Emitted(ops, order, t), |w.stack|)]))
    else if c == '+' then Ok(w.(current := RotateZ(ops, t, angle)))
    else if c == '-' then Ok(w.(current := RotateZ(ops, t, -angle)))
    else if c == '&' then Ok(w.(current := RotateX(ops, t, angle)))
    else if c == '^' then Ok(w.(current := RotateX(ops, t, -angle)))
    else if c == '\\' then Ok(w.(current := RotateY(ops, t, angle)))
    else if c == '/' then Ok(w.(current := RotateY(ops, t, -angle)))
    else if c == '|' then Ok(w.(current := RotateZ(ops, t, 180.0)))
    else if c == '[' then Ok(w.(stack := w.stack + [t]))
    else if c == ']' then
      if w.stack == [] then Throw(InvalidOperation)
      else Ok(w.(current := w.stack[|w.stack| - 1], stack := w.stack[..|w.stack| - 1],
                 branchEnds := w.branchEnds + [t]))
    else Ok(w)
  }

  /** The symbols of `s` in order, stopping at the first exception. */
  function Run(ops: Ops, angle: real, order: Order, w: Walk, s: string): Result<Walk> {
    if s == [] then Ok(w)
    else
      match Run(ops, angle, order, w, s[..|s| - 1])
      case Throw(e) => Throw(e)
      case Ok(v) => Step(ops, angle, order, v, s[|s| - 1])
  }

  /** Rotations turn the direction only; symbols that are not opcodes
      change nothing. */
  lemma StepRotation(ops: Ops, angle: real, order: Order, w: Walk, c: char)
    ensures IsRotation(c) ==>
      && Step(ops, angle, order, w, c).Ok?
      && Step(ops, angle, order, w, c).value.current.position == w.current.position
      && Step(ops, angle, order, w, c).value.current.step == w.current.step
      && Step(ops, angle, order, w, c).value.(current := w.current) == w
    ensures !IsOpcode(c) ==> Step(ops, angle, order, w, c) == Ok(w)
  {
  }

  lemma {:induction false} RunAppend(ops: Ops, angle: real, order: Order, w: Walk, a: string, b: string)
    ensures Run(ops, angle, order, w, a + b) ==
      match Run(ops, angle, order, w, a)
      case Throw(e) => Throw(e)
      case Ok(v) => Run(ops, angle, order, v, b)
  {
    if b == [] {
      assert a + b == a;
    } else {
      assert (a + b)[..|a + b| - 1] == a + b[..|b| - 1];
      RunAppend(ops, angle, order, w, a, b[..|b| - 1]);
      if Run(ops, angle, order, w, a).Throw? {
        RunThrowStays(ops, angle, order, w, a, b);
      }
    }
  }

  lemma {:induction false} RunThrowStays(ops: Ops, angle: real, order: Order, w: Walk, a: string, b: string)
    requires Run(ops, angle, order, w, a).Throw?
    ensures Run(ops, angle, order, w, a + b) == Run(ops, angle, order, w, a)
  {
    if b != [] {
      assert (a + b)[..|a + b| - 1] == a + b[..|b| - 1];
      RunThrowStays(ops, angle, order, w, a, b[..|b| - 1]);
    } else {
      assert a + b == a;
    }
  }

  /** The number of unmatched `[` after `s`, from an initial stack height
      `d` (negative once a `]` found the stack empty). */
  function Height(s: string, d: int): int {
    d + Count(s, '[') - Count(s, ']')
  }

  /** No prefix of `s` pops more than the `d` poses on the stack plus
      those it pushed. */
  predicate NeverUnderflows(s: string, d: int) {
    forall k :: 0 <= k < |s| ==> s[k] != ']' || Height(s[..k], d) > 0
  }

  lemma {:induction false} CountSnoc(s: string, c: char, x: char)
    ensures Count(s + [x], c) == Count(s, c) + (if x == c then 1 else 0)
  {
    CountAppend(s, [x], c);
    assert [x][1..] == [];
  }

  /** The loop throws exactly when some `]` finds the stack empty; when it
      completes, the stack holds `Height` poses, one segment was emitted per
      `F` and one branch end recorded per `]`. */
  lemma RunShape(ops: Ops, angle: real, order: Order, w: Walk, s: string)
    ensures Run(ops, angle, order, w, s).Ok? <==> NeverUnderflows(s, |w.stack|)
    ensures Run(ops, angle, order, w, s).Throw? ==> Run(ops, angle, order, w, s).exception == InvalidOperation
    ensures Run(ops, angle, order, w, s).Ok? ==>
      var v := Run(ops, angle, order, w, s).value;
      && |v.stack| == Height(s, |w.stack|)
      && |v.segments| == |w.segments| + Count(s, 'F')
      && |v.branchEnds| == |w.branchEnds| + Count(s, ']')
  {
    RunOutcome(ops, angle, order, w, s);
    if Run(ops, angle, order, w, s).Ok? {
      RunCounts(ops, angle, order, w, s);
    }
  }

  lemma {:induction false} RunCounts(ops: Ops, angle: real, order: Order, w: Walk, s: string)
    requires Run(ops, angle, order, w, s).Ok?
    ensures var v := Run(ops, angle, order, w, s).value;
      && |v.stack| == Height(s, |w.stack|)
      && |v.segments| == |w.segments| + Count(s, 'F')
      && |v.branchEnds| == |w.branchEnds| + Count(s, ']')
  {
    if s != [] {
      var init := s[..|s| - 1];
      var c := s[|s| - 1];
      RunCounts(ops, angle, order, w, init);
      StepShape(ops, angle, order, Run(ops, angle, order, w, init).value, c);
      assert s == init + [c];
      CountSnoc(init, '[', c);
      CountSnoc(init, ']', c);
      CountSnoc(init, 'F', c);
    }
  }

  lemma {:induction false} RunOutcome(ops: Ops, angle: real, order: Order, w: Walk, s: string)
    ensures Run(ops, angle, order, w, s).Ok? <==> NeverUnderflows(s, |w.stack|)
    ensures Run(ops, angle, order, w, s).Throw? ==> Run(ops, angle, order, w, s).exception == InvalidOperation
  {
    if s != [] {
      var init := s[..|s| - 1];
      var c := s[|s| - 1];
      RunOutcome(ops, angle, order, w, init);
      if Run(ops, angle, order, w, init).Ok? {
        RunCounts(ops, angle, order, w, init);
        StepShape(ops, angle, order, Run(ops, angle, order, w, init).value, c);
      }
      assert s == init + [c];
      NeverUnderflowsSnoc(init, c, |w.stack|);
    }
  }

  /** One symbol throws exactly for a `]` on an empty stack; otherwise a
      `[` pushes one pose, a `]` pops one and records one branch end, and
      an `F` emits one segment. */
  lemma StepShape(ops: Ops, angle: real, order: Order, w: Walk, c: char)
    ensures Step(ops, angle, order, w, c).Ok? <==> !(c == ']' && w.stack == [])
    ensures Step(ops, angle, order, w, c).Throw? ==> Step(ops, angle, order, w, c).exception == InvalidOperation
    ensures Step(ops, angle, order, w, c).Ok? ==>
      var v := Step(ops, angle, order, w, c).value;
      && |v.stack| == |w.stack| + (if c == '[' then 1 else 0) - (if c == ']' then 1 else 0)
      && |v.segments| == |w.segments| + (if c == 'F' then 1 else 0)
      && |v.branchEnds| == |w.branchEnds| + (if c == ']' then 1 else 0)
  {
  }

  /** A longer string never underflows when the shorter one does not and
      its last symbol is not a `]` on an empty stack. */
  lemma NeverUnderflowsSnoc(s: string, c: char, d: int)
    ensures NeverUnderflows(s + [c], d) <==> NeverUnderflows(s, d) && (c != ']' || Height(s, d) > 0)
  {
    var t := s + [c];
    assert forall k :: 0 <= k < |s| ==> t[k] == s[k] && t[..k] == s[..k];
    assert t[..|s|] == s;
  }

  /** Every segment's depth is the number of `[` before its `F` that are
      still open there, counted on top of the initial stack. */
  lemma RunDepths(ops: Ops, angle: real, order: Order, w: Walk, s: string, k: int)
    requires Run(ops, angle, order, w, s).Ok? && 0 <= k < |s| && s[k] == 'F'
    ensures var v := Run(ops, angle, order, w, s).value;
      && |w.segments| + Count(s[..k], 'F') < |v.segments|
      && v.segments[|w.segments| + Count(s[..k], 'F')].depth == Height(s[..k], |w.stack|)
  {
    RunPrefix(ops, angle, order, w, s, k + 1);
    SegmentAt(ops, angle, order, w, s, k);
    var after := Run(ops, angle, order, w, s[..k + 1]).value;
    SegmentsGrow(ops, angle, order, after, s[k + 1..]);
  }

  /** A run that completes splits at any point into two that complete. */
  lemma RunPrefix(ops: Ops, angle: real, order: Order, w: Walk, s: string, k: int)
    requires Run(ops, angle, order, w, s).Ok? && 0 <= k <= |s|
    ensures Run(ops, angle, order, w, s[..k]).Ok?
    ensures Run(ops, angle, order, Run(ops, angle, order, w, s[..k]).value, s[k..]) == Run(ops, angle, order, w, s)
  {
    assert s == s[..k] + s[k..];
    RunAppend(ops, angle, order, w, s[..k], s[k..]);
  }

  /** The `F` at position `k` emits segment number `Count(s[..k], 'F')`,
      at the stack height before it. */
  lemma SegmentAt(ops: Ops, angle: real, order: Order, w: Walk, s: string, k: int)
    requires 0 <= k < |s| && s[k] == 'F' && Run(ops, angle, order, w, s[..k + 1]).Ok?
    ensures var after := Run(ops, angle, order, w, s[..k + 1]).value;
      && |after.segments| == |w.segments| + Count(s[..k], 'F') + 1
      && after.segments[|w.segments| + Count(s[..k], 'F')].depth == Height(s[..k], |w.stack|)
  {
    assert s[..k + 1][..k] == s[..k];
    RunShape(ops, angle, order, w, s[..k]);
  }

  /** Segments already emitted are never changed. */
  lemma {:induction false} SegmentsGrow(ops: Ops, angle: real, order: Order, w: Walk, s: string)
    requires Run(ops, angle, order, w, s).Ok?
    ensures var v := Run(ops, angle, order, w, s).value;
      |w.segments| <= |v.segments| && v.segments[..|w.segments|] == w.segments
  {
    if s != [] {
      SegmentsGrow(ops, angle, order, w, s[..|s| - 1]);
    }
  }

  /** A branch body: it closes every `[` it opens and never closes one it
      did not open. */
  predicate Balanced(b: string) {
    Count(b, '[') == Count(b, ']') && NeverUnderflows(b, 0)
  }

  lemma NeverUnderflowsLifts(s: string, d: nat)
    requires NeverUnderflows(s, 0)
    ensures NeverUnderflows(s, d)
  {
  }

  /** A run that never pops below its initial height leaves the poses that
      were on the stack untouched. */
  lemma {:induction false} StackBelowKept(ops: Ops, angle: real, order: Order, w: Walk, s: string)
    requires Run(ops, angle, order, w, s).Ok? && NeverUnderflows(s, 0)
    ensures var v := Run(ops, angle, order, w, s).value;
      |w.stack| <= |v.stack| && v.stack[..|w.stack|] == w.stack
  {
    if s != [] {
      var init := s[..|s| - 1];
      assert forall k :: 0 <= k < |init| ==> s[k] == init[k] && s[..k] == init[..k];
      assert NeverUnderflows(init, 0);
      StackBelowKept(ops, angle, order, w, init);
      RunShape(ops, angle, order, w, init);
      if s[|s| - 1] == ']' {
        assert Height(init, 0) > 0;
      }
    }
  }

  /** `[` followed by a balanced body and `]` gives back the pose and the
      stack current at the `[`. */
  lemma BranchRestores(ops: Ops, angle: real, order: Order, w: Walk, b: string)
    requires Balanced(b)
    ensures Run(ops, angle, order, w, "[" + b + "]").Ok?
    ensures Run(ops, angle, order, w, "[" + b + "]").value.current == w.current
    ensures Run(ops, angle, order, w, "[" + b + "]").value.stack == w.stack
  {
    var w1 := w.(stack := w.stack + [w.current]);
    assert Run(ops, angle, order, w, "[") == Ok(w1) by {
      assert "["[..0] == [];
    }
    NeverUnderflowsLifts(b, |w1.stack|);
    RunShape(ops, angle, order, w1, b);
    StackBelowKept(ops, angle, order, w1, b);
    var v := Run(ops, angle, order, w1, b).value;
    assert v.stack == w1.stack;
    RunAppend(ops, angle, order, w, "[", b);
    RunAppend(ops, angle, order, w, "[" + b, "]");
    assert Run(ops, angle, order, v, "]") == Step(ops, angle, order, v, ']') by {
      assert "]"[..0] == [];
    }
  }

  /** The segments `LSystem` emits: each pose advanced once more. */
  function Advanced(ops: Ops, ps: seq<Placement>): (r: seq<Placement>)
    ensures |r| == |ps|
    ensures forall i :: 0 <= i < |ps| ==> r[i] == Placement(Forward(ops, ps[i].turtle), ps[i].depth)
  {
    if ps == [] then []
    else Advanced(ops, ps[..|ps| - 1]) + [Placement(Forward(ops, ps[|ps| - 1].turtle), ps[|ps| - 1].depth)]
  }

  /** The segment lists of the two orders after the same symbols. */
  predicate Agree(ops: Ops, base: seq<Placement>, e: Walk, a: Walk) {
    |base| <= |e.segments| && a == e.(segments := base + Advanced(ops, e.segments[|base|..]))
  }

  lemma StepOrders(ops: Ops, angle: real, base: seq<Placement>, e: Walk, a: Walk, c: char)
    requires Agree(ops, base, e, a)
    ensures Step(ops, angle, EmitThenAdvance, e, c).Ok? <==> Step(ops, angle, AdvanceThenEmit, a, c).Ok?
    ensures Step(ops, angle, EmitThenAdvance, e, c).Ok? ==>
      Agree(ops, base, Step(ops, angle, EmitThenAdvance, e, c).value, Step(ops, angle, AdvanceThenEmit, a, c).value)
  {
    if c == 'F' {
      ForwardOrders(ops, angle, base, e, a);
    } else {
      TurnOrders(ops, angle, base, e, a, c);
    }
  }

  /** `F` emits at the old pose then advances in one order, and advances
      then emits in the other: the emitted placements differ by one
      advance. */
  lemma ForwardOrders(ops: Ops, angle: real, base: seq<Placement>, e: Walk, a: Walk)
    requires Agree(ops, base, e, a)
    ensures Step(ops, angle, EmitThenAdvance, e, 'F').Ok? && Step(ops, angle, AdvanceThenEmit, a, 'F').Ok?
    ensures Agree(ops, base, Step(ops, angle, EmitThenAdvance, e, 'F').value, Step(ops, angle, AdvanceThenEmit, a, 'F').value)
  {
    var e2 := Step(ops, angle, EmitThenAdvance, e, 'F').value;
    var tail := e.segments[|base|..];
    assert e2.segments[|base|..] == tail + [Placement(e.current, |e.stack|)];
  }

  /** Any other symbol does the same in both orders and emits nothing. */
  lemma TurnOrders(ops: Ops, angle: real, base: seq<Placement>, e: Walk, a: Walk, c: char)
    requires Agree(ops, base, e, a) && c != 'F'
    ensures Step(ops, angle, AdvanceThenEmit, a, c) ==
      match Step(ops, angle, EmitThenAdvance, e, c)
      case Throw(x) => Throw(x)
      case Ok(v) => Ok(v.(segments := a.segments))
  {
  }

  /** The two interpreters walk alike: they fail on the same strings, end
      with the same pose, stack and branch ends, and `LSystem` emits each
      segment at the pose `LSystemInterpreter` emits it at, advanced once. */
  lemma {:induction false} OrdersAgree(ops: Ops, angle: real, w: Walk, s: string)
    ensures Run(ops, angle, EmitThenAdvance, w, s).Ok? <==> Run(ops, angle, AdvanceThenEmit, w, s).Ok?
    ensures Run(ops, angle, EmitThenAdvance, w, s).Ok? ==>
      var e := Run(ops, angle, EmitThenAdvance, w, s).value;
      && |w.segments| <= |e.segments|
      && Run(ops, angle, AdvanceThenEmit, w, s).value ==
           e.(segments := w.segments + Advanced(ops, e.segments[|w.segments|..]))
  {
    if s == [] {
      assert w.segments[|w.segments|..] == [];
    } else {
      var init := s[..|s| - 1];
      OrdersAgree(ops, angle, w, init);
      if Run(ops, angle, EmitThenAdvance, w, init).Ok? {
        StepOrders(ops, angle, w.segments, Run(ops, angle, EmitThenAdvance, w, init).value,
                   Run(ops, angle, AdvanceThenEmit, w, init).value, s[|s| - 1]);
      }
    }
  }
}
