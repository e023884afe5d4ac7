# L-systems in Unity, modelled in Dafny

This project models the algorithmic core of LSystemsInUnity, a Unity program that grows plants from L-system grammars. The pipeline has five stages:

1. **Parsing.** A grammar text is parsed into an axiom, a turning angle, a number of derivations and a table of stochastic production rules. This is done by `LSystemParser.Parse`, `ProductionRule.Build` and the line loop of `LSystem.LoadFromFile`.
2. **Rule stores.** The rules live in a dictionary of lists with a matcher that draws a random number. There are two of these: `ProductionRuleSet` and `ProductionMatcher`.
3. **Derivation.** The axiom is rewritten in parallel for `max(1, n)` generations, by `LSystemDeriver.Derive` and `LSystem.Derive`.
4. **Interpretation.** The derived string is read by a turtle with a pose stack. It emits one cylinder segment per `F` and a cluster of leaves per `]`. This is done by `LSystemInterpreter.Interpret` and `LSystem.Interpret`.
5. **Meshes.** The segments are packed into mesh chunks of at most 65000 vertices. The meshes of the planes, the cylinder and the sphere are built index by index, in `ProceduralMeshes`.

How the source is rendered in Dafny:

- **Methods.** Each loop of the source is a `method` with its loop and invariants. Each method is proved against a function that specifies it. Lemmas state what the source promises about those functions.
- **Classes.** The two objects whose fields change are classes:
  - `RuleSets.ProductionRuleSet`, whose lookup table `Add` fills;
  - `LSystems.LSystem`, whose axiom, angle, derivation count, module string, chunks and leaves the component's methods update.
- **Exceptions.** A .NET exception is the `Throw` case of a `Result`.
- **Unity values.** Vectors and quaternions are opaque types. Their operations are passed in as a record of functions, `Geometry.Ops`.
- **Randomness.** `UnityEngine.Random.value` is passed in as the draws `chances(generation, position)`.
- **Number parsing.** `float.Parse` and `int.Parse` are passed in as functions to `Parsed`: a number, `Malformed` (a `FormatException`) or `OutOfRange` (an `OverflowException`). `int.Parse` yields only 32-bit values.
- **C# `int` arithmetic.** Buffer sizes and loop bounds in the mesh builders and in `Arrays.Sequence` are computed as C#'s unchecked 32-bit arithmetic does, with `Runtime.Wrap32`. A negative wrapped size is the `OverflowException` of `new T[n]`. A loop with more slots to fill than its wrapped buffer holds throws `IndexOutOfRangeException`.

Modules, one per file:

- `Runtime`: exceptions, `Option`, `Result`, `Math.Max(1, n)`.
- `Text`: `String.Trim`, `Split`, `IndexOf` and counting.
- `Arrays`: the `Arrays` helpers and `Array.Copy`.
- `Productions`, `ProductionRules`, `RuleSets`, `ProductionMatcher`: the rules, `Build` and the two stores.
- `Parser`: `LSystemParser`.
- `Deriver`: derivation over either store.
- `Geometry`, `Turtles`: the turtle and the opcode loop.
- `Buffers`, `Meshes`: mesh buffers and chunk packing.
- `Drawing`: the interpretation loop shared by both interpreters.
- `Interpreter`: `LSystemInterpreter`.
- `ProceduralMeshes`: planes, cylinder and sphere.
- `LSystems`: the `LSystem` component.

## Model

| member | source | states |
|---|---|---|
| Arrays.Allocate | Assets/Scripts/Arrays.cs:6 | `new T[size]` throws `OverflowException` exactly when `size < 0`, else gives a fresh array of `size` default values |
| Runtime.Wrap32 | Assets/Scripts/Arrays.cs:6 | an in-range value is kept, and a value one 2^32 above or below the `int` range is shifted back by 2^32 |
| Arrays.Sequence | Assets/Scripts/Arrays.cs:4-11 | with the size `max - min + 1` wrapped to 32 bits: a negative size throws `Overflow`; `max == int.MaxValue` throws `IndexOutOfRange`, because `i++` wraps and `i <= max` never fails; otherwise the array has the wrapped size, and slot `k` holds `min + k` while that is at most `max`, and 0 after |
| Arrays.New | Assets/Scripts/Arrays.cs:13-20 | throws exactly for a negative size; otherwise `size` elements, each equal to the initial value |
| Arrays.Copy | Assets/Scripts/LSystemInterpreter.cs:97-100 | `Array.Copy(source, 0, destination, at, n)` puts `source` at `at` and leaves the rest of the destination as it was |
| Arrays.CopyAt | Assets/Scripts/LSystemInterpreter.cs:111-112 | one element of a copy extends the copied prefix and keeps the suffix |
| Runtime.AtLeastOne | Assets/Scripts/LSystemDeriver.cs:8 | `Math.Max(1, n)` is at least 1 and at least `n`, and is one of them |
| Text.TrimStart | Assets/Scripts/LSystemParser.cs:15 | the result is a suffix whose first character is not white space, and everything removed is white space |
| Text.TrimEnd | Assets/Scripts/LSystemParser.cs:15 | the result is a prefix whose last character is not white space, and everything removed is white space |
| Text.Trim | Assets/Scripts/LSystemParser.cs:15 | the trimmed line is a slice of the line with only white space before and after it, and it is empty or starts and ends with non-white space |
| Text.TrimAround | Assets/Scripts/LSystemParser.cs:15 | trimming the start and then the end leaves the slice that starts where the leading white space ends, with only white space around it |
| Text.SlicesAround | Assets/Scripts/LSystemParser.cs:15 | a white-bordered slice of a white-bordered slice is a white-bordered slice of the whole |
| Text.CountAppend | Assets/Scripts/LSystemParser.cs:43-44 | occurrences of a character add up over a concatenation |
| Text.CountAbsent | Assets/Scripts/LSystemParser.cs:43-44 | a character occurs zero times exactly when it is not in the string |
| Text.FirstIndex | Assets/Scripts/LSystemParser.cs:25 | the position holds the character and no earlier position does |
| Text.Split | Assets/Scripts/LSystemParser.cs:43 | `Split(sep)` yields one more piece than there are separators, and no piece contains the separator |
| Text.JoinSplit | Assets/Scripts/LSystemParser.cs:12 | joining the pieces of a split with the separator gives the string back |
| Text.SplitJoin | Assets/Scripts/LSystemParser.cs:12 | splitting a join of separator-free pieces gives the pieces back |
| Text.IndexFrom | Assets/Scripts/LSystemParser.cs:23 | the search from `i` finds an occurrence with none before it, or -1 when there is none from `i` on |
| Text.IndexOf | Assets/Scripts/LSystemParser.cs:23-35 | `IndexOf(sub)` is the first occurrence of `sub`, or -1 exactly when it occurs nowhere |
| Text.FirstIndexUnique | Assets/Scripts/LSystemParser.cs:25 | a position holding `c` with no `c` before it is the first index of `c` |
| Text.IndexOfChar | Assets/Scripts/LSystemParser.cs:25 | `IndexOf("=")` is the first index of `=`, and -1 when the line has none |
| Productions.Insert | Assets/Scripts/ProductionRuleSet.cs:8-18 | the rule is appended to its predecessor's list, a one-element list is created for a new key, and every other list is unchanged |
| Productions.MentionsLast | Assets/Scripts/ProductionRuleSet.cs:20-23 | a predecessor occurs in a longer list of rules exactly when it occurs in the shorter one or is the last rule's |
| Productions.GroupIsFilter | Assets/Scripts/LSystemParser.cs:51-53 | grouping rules makes a key exactly for each predecessor that occurs, holding that predecessor's rules in file order, never empty |
| Productions.RulesForPredecessor | Assets/Scripts/LSystemParser.cs:51-53 | every rule in a predecessor's list has that predecessor |
| Productions.SumOfNext | Assets/Scripts/ProductionRuleSet.cs:57-60 | the running sum of a longer prefix adds the next probability |
| Productions.SumProbabilities | Assets/Scripts/ProductionMatcher.cs:30-32 | the accumulation loop computes the sum of the list's probabilities |
| ProductionRules.Before | Assets/Scripts/ProductionRule.cs:37 | the text before the first `c` is a separator-free prefix, followed by `c` when `c` occurs, and the whole string when it does not |
| ProductionRules.After | Assets/Scripts/ProductionRule.cs:45 | the string is the text before the first `c`, then `c`, then the result |
| ProductionRules.SplitPieces | Assets/Scripts/ProductionRule.cs:45-48 | the first piece of a split is the text before the separator; the second is the text between the first and second separators |
| ProductionRules.Build | Assets/Scripts/ProductionRule.cs:35-53 | `Build` returns null exactly when the line does not hold exactly one `=` |
| ProductionRules.SplitOnce | Assets/Scripts/ProductionRule.cs:37-39 | a line with one `=` splits into exactly the text before it and the text after it |
| ProductionRules.BuildMeaning | Assets/Scripts/ProductionRule.cs:43-52 | lists the outcomes of `Build`, each with exactly the condition that produces it (see below) |
| RuleSets.FirstAtMostMeaning | Assets/Scripts/ProductionRuleSet.cs:39-46 | the scan picks the first rule whose own probability is at most the draw, and throws exactly when every probability is above it |
| RuleSets.OwnMatchMeaning | Assets/Scripts/ProductionRuleSet.cs:25-47 | gives the three outcomes of `Match` (see below) |
| RuleSets.OwnMatchThrows | Assets/Scripts/ProductionRuleSet.cs:37-46 | for two rules of probability 1/2, a valid grammar, a draw of 1/4 makes `Match` throw |
| RuleSets.OwnMatchSkipsLater | Assets/Scripts/ProductionRuleSet.cs:39-43 | when the first rule's probability is at most the second's, the second rule is never chosen |
| RuleSets.ProductionRuleSet.constructor | Assets/Scripts/ProductionRuleSet.cs:6 | the set starts with no rules and an empty table |
| RuleSets.ProductionRuleSet.Add | Assets/Scripts/ProductionRuleSet.cs:8-18 | the rule is recorded as added and the table becomes `Insert(old table, rule)` |
| RuleSets.ProductionRuleSet.Contains | Assets/Scripts/ProductionRuleSet.cs:20-23 | true exactly when some added rule has the module as predecessor |
| RuleSets.ProductionRuleSet.Match | Assets/Scripts/ProductionRuleSet.cs:25-47 | the loop with its early return computes the own-probability selection |
| RuleSets.ProductionRuleSet.CheckProbabilities | Assets/Scripts/ProductionRuleSet.cs:49-68 | true exactly when every list's probabilities sum exactly to 1; the single-rule shortcut agrees with that |
| ProductionMatcher.PrefixScan | Assets/Scripts/ProductionMatcher.cs:13-21 | the running-sum loop, resumed after `k` rules, picks the first rule whose prefix sum is at most the draw, or throws exactly when none is |
| ProductionMatcher.CumulativeMatchMeaning | Assets/Scripts/ProductionMatcher.cs:6-22 | gives the three outcomes of `Match` (see below) |
| ProductionMatcher.FirstPrefixNeverNull | Assets/Scripts/ProductionMatcher.cs:13-21 | the scan of a present key never answers "no rules" |
| ProductionMatcher.StaysAbove | Assets/Scripts/ProductionMatcher.cs:16-18 | once the running sum passes the draw, non-negative probabilities never select a rule |
| ProductionMatcher.FirstOrNothing | Assets/Scripts/ProductionMatcher.cs:13-21 | with non-negative probabilities and several rules, `Match` returns the first rule exactly when its probability is at most the draw, and otherwise throws |
| ProductionMatcher.Match | Assets/Scripts/ProductionMatcher.cs:6-22 | the loop over `accProbability` computes the cumulative selection |
| ProductionMatcher.CheckProbabilities | Assets/Scripts/ProductionMatcher.cs:24-37 | false when a single-rule list is not 1 or some list does not sum exactly to 1, true otherwise |
| ProductionMatcher.SumMonotone | Assets/Scripts/ProductionMatcher.cs:16 | prefix sums of non-negative probabilities never decrease |
| ProductionMatcher.WeightedIndex | Assets/Scripts/ProductionMatcher.cs:13-21 | the corrected selection always names a rule of the list |
| ProductionMatcher.WeightedFrom | Assets/Scripts/ProductionMatcher.cs:13-21 | the corrected scan, resumed after `k` rules whose sum is at most the draw, lands in the interval of the draw |
| ProductionMatcher.IntervalsDisjoint | Assets/Scripts/ProductionMatcher.cs:13-21 | with non-negative probabilities at most one rule's interval holds a draw |
| ProductionMatcher.WeightedMatchMeaning | Assets/Scripts/ProductionMatcher.cs:13-21 | the corrected `Match` selects rule `i` exactly when the draw lies in rule `i`'s interval of the running sums |
| ProductionMatcher.CumulativeMatchThrows | Assets/Scripts/ProductionMatcher.cs:13-21 | for two rules of probability 1/2, a valid grammar, a draw of 1/4 makes `Match` throw; the corrected matcher picks the first rule for 1/4 and the second for 3/4 |
| Deriver.PolicyOf | Assets/Scripts/LSystemExecutor.cs:45-50 | a `ProductionRuleSet` matches by own probability and a dictionary by running sum |
| Deriver.StoreContains | Assets/Scripts/LSystemDeriver.cs:14 | "contains" is true exactly when the symbol is a key of the store's table |
| Deriver.StoreMatch | Assets/Scripts/LSystemDeriver.cs:19 | "match" is the store's own matcher on its table |
| Deriver.RewriteGeneration | Assets/Scripts/LSystemDeriver.cs:10-22 | the inner loop with `+=` computes one generation of parallel rewriting, stopping at the first exception |
| Deriver.Derive | Assets/Scripts/LSystemDeriver.cs:5-24 | the nested loop computes `Math.Max(1, derivations)` generations from the axiom |
| Deriver.RewriteAbort | Assets/Scripts/LSystemDeriver.cs:19-20 | a generation throws what its first throwing prefix throws |
| Deriver.GenerationsAbort | Assets/Scripts/LSystemDeriver.cs:8 | once a generation throws, every longer derivation throws the same |
| Deriver.RewriteInert | Assets/Scripts/LSystemDeriver.cs:14-18 | a string none of whose symbols has rules is copied unchanged |
| Deriver.DerivationInert | Assets/Scripts/LSystemDeriver.cs:8-22 | an axiom without rewritable symbols (an empty rule set, say) survives any number of generations unchanged, whatever the draws |
| Deriver.Expand | Assets/Scripts/LSystemDeriver.cs:10-22 | the image of a string is the concatenation of the images of its symbols |
| Deriver.ExpandAppend | Assets/Scripts/LSystemDeriver.cs:10-22 | the image of a concatenation is the concatenation of the images |
| Deriver.RewriteDeterministic | Assets/Scripts/LSystemDeriver.cs:10-22 | with one rule per predecessor, a generation is the in-order concatenation of the successors, and of the symbols without rules |
| Deriver.WeightedDerivationTotal | Assets/Scripts/LSystemDeriver.cs:8-22 | with the corrected matcher, a derivation over non-empty rule lists never throws |
| Deriver.WeightedRewriteTotal | Assets/Scripts/LSystemDeriver.cs:10-22 | with the corrected matcher, one generation never throws |
| Deriver.Repeat | Assets/Scripts/LSystemDeriver.cs:10-22 | `n` copies of a symbol |
| Deriver.ExpandDoubling | Assets/Scripts/LSystemDeriver.cs:10-22 | under `F = (1)FF`, a string of `n` `F`s becomes `2n` `F`s |
| Deriver.DoublingGenerations | Assets/Scripts/LSystemDeriver.cs:8-22 | under `F = (1)FF`, `k` generations from `F` give `2^k` `F`s, for every matcher and every draw |
| Deriver.AtLeastOneGeneration | Assets/Scripts/LSystemDeriver.cs:8 | a derivation count of zero or below behaves like one |
| Parser.ValueOfMeaning | Assets/Scripts/LSystemParser.cs:25-26 | a setting's value is the trimmed text after the first `=`, or the whole trimmed line when there is none |
| Parser.Read | Assets/Scripts/LSystemParser.cs:16-54 | a line fails only with `IndexOutOfRange` (a lone `/`), `ArgumentOutOfRange`, `Format` or `Overflow` |
| Parser.AngleEffect | Assets/Scripts/LSystemParser.cs:34 | `float.Parse` of the angle fails only with `Format` or `Overflow` |
| Parser.DerivationsEffect | Assets/Scripts/LSystemParser.cs:40 | `int.Parse` of the number of derivations fails only with `Format` or `Overflow` |
| Parser.CarriageReturnTestDead | Assets/Scripts/LSystemParser.cs:18-19 | the lone-carriage-return test never fires: reading a raw line is reading its trimmed form |
| Parser.Reads | Assets/Scripts/LSystemParser.cs:12-13 | one effect per line, each the effect of that line |
| Parser.Parse | Assets/Scripts/LSystemParser.cs:6-58 | the line loop, with its four outputs, computes `ParseText`: the lines applied in order from axiom `""`, angle 0, derivations 0 and an empty table, then the probability check |
| Parser.ApplyAllAbort | Assets/Scripts/LSystemParser.cs:13-55 | once a prefix of the lines throws, the whole text throws the same |
| Parser.ApplyAllFailure | Assets/Scripts/LSystemParser.cs:13-55 | the lines go through exactly when none of them fails, and otherwise throw the exception of the first failing one |
| Parser.ApplyStep | Assets/Scripts/LSystemParser.cs:13-55 | one more line applies its effect to the outputs so far and adds at most its own rule |
| Parser.FirstFailureAt | Assets/Scripts/LSystemParser.cs:13-55 | a failing line after lines that went through is the first failure, and the whole text throws its exception |
| Parser.Last | Assets/Scripts/LSystemParser.cs:23-40 | the last line that sets a setting does set it |
| Parser.ApplyAllContents | Assets/Scripts/LSystemParser.cs:8-55 | after the lines: the table groups the rules in file order, and each setting holds its last assignment, or its initial value when nothing sets it |
| Parser.ApplyAllRules | Assets/Scripts/LSystemParser.cs:8-55 | the table after the lines groups the starting rules followed by the rule lines' rules, in file order |
| Parser.ApplyAllSettings | Assets/Scripts/LSystemParser.cs:8-55 | each setting after the lines holds its last assignment, or its starting value when nothing sets it |
| Parser.ApplyFields | Assets/Scripts/LSystemParser.cs:23-53 | a line changes only the output it names: the axiom, angle or derivations, or the rule's list |
| Parser.ParseTextValid | Assets/Scripts/LSystemParser.cs:56-57 | a grammar that parses has a table whose lists are non-empty, hold their own predecessor's rules and sum to 1 |
| Parser.MalformedRuleLineSkipped | Assets/Scripts/LSystemParser.cs:43-45 | a rule line without exactly one `=` is skipped without an error |
| Parser.LoneSlashThrows | Assets/Scripts/LSystemParser.cs:20 | a line that is `/` after trimming throws `IndexOutOfRange` |
| Turtles.Forward | Assets/Scripts/LSystemInterpreter.cs:27-30 | `Forward` moves the position by the rotated step and keeps direction and step |
| Turtles.StepRotation | Assets/Scripts/LSystemInterpreter.cs:213-240 | rotation opcodes change the direction only; other symbols change nothing |
| Turtles.RunAppend | Assets/Scripts/LSystemInterpreter.cs:193-259 | running a concatenation is running the first part and then the second from where it ended |
| Turtles.RunThrowStays | Assets/Scripts/LSystemInterpreter.cs:257 | once a prefix throws, the whole string throws the same |
| Turtles.RunShape | Assets/Scripts/LSystemInterpreter.cs:193-259 | gives the outcome and the counts of a run (see below) |
| Turtles.RunCounts | Assets/Scripts/LSystemInterpreter.cs:196-258 | a completed run emits one segment per `F` and records one branch end per `]` |
| Turtles.RunOutcome | Assets/Scripts/LSystemInterpreter.cs:257 | unbalanced input is rejected with `Stack.Pop`'s exception, and only unbalanced input |
| Turtles.StepShape | Assets/Scripts/LSystemInterpreter.cs:196-258 | one symbol throws only for `]` on an empty stack; `[` pushes, `]` pops, `F` emits one segment |
| Turtles.NeverUnderflowsSnoc | Assets/Scripts/LSystemInterpreter.cs:257 | a longer string is balanced so far exactly when the shorter one is and its last symbol is not `]` on an empty stack |
| Turtles.RunDepths | Assets/Scripts/LSystemInterpreter.cs:206 | each segment's nesting level is the number of `[` still open before its `F` |
| Turtles.RunPrefix | Assets/Scripts/LSystemInterpreter.cs:193-259 | a completed run splits at any point into two completed runs |
| Turtles.SegmentAt | Assets/Scripts/LSystemInterpreter.cs:196-212 | the `F` at position `k` emits segment number `Count(s[..k], 'F')` at the stack height before it |
| Turtles.SegmentsGrow | Assets/Scripts/LSystemInterpreter.cs:196-212 | segments already emitted are never changed |
| Turtles.NeverUnderflowsLifts | Assets/Scripts/LSystemInterpreter.cs:257 | a string balanced from an empty stack stays balanced on a taller one |
| Turtles.StackBelowKept | Assets/Scripts/LSystemInterpreter.cs:241-258 | a run that never pops below its start leaves the poses already on the stack untouched |
| Turtles.BranchRestores | Assets/Scripts/LSystemInterpreter.cs:241-257 | `[` then a balanced body then `]` gives back the pose and the stack current at the `[` |
| Turtles.Advanced | Assets/Scripts/LSystem.cs:264-266 | each segment is moved to its pose advanced once |
| Turtles.StepOrders | Assets/Scripts/LSystem.cs:261-290 | one symbol keeps the two interpreters' walks in step |
| Turtles.ForwardOrders | Assets/Scripts/LSystem.cs:263-265 | an `F` succeeds in both orders, and the new segment of the advance-then-emit order is the other order's segment advanced once |
| Turtles.TurnOrders | Assets/Scripts/LSystem.cs:266-289 | every other symbol does the same in both orders and emits nothing |
| Turtles.OrdersAgree | Assets/Scripts/LSystem.cs:264-266 | both orders succeed or fail together; `LSystem` emits each segment at the pose `LSystemInterpreter` uses, advanced once, and all else agrees |
| Buffers.ConcatLength | Assets/Scripts/ProceduralMeshes.cs:127-128 | blocks of equal width `w` fill `n * w` slots |
| Buffers.ConcatIndex | Assets/Scripts/ProceduralMeshes.cs:156-187 | slot `a * w + r` holds position `r` of block `a` |
| Buffers.ConcatMember | Assets/Scripts/ProceduralMeshes.cs:191-207 | every slot comes from some block |
| Meshes.Placed | Assets/Scripts/LSystemInterpreter.cs:102-104 | each template vertex is transformed in place and order |
| Meshes.Shifted | Assets/Scripts/LSystemInterpreter.cs:106-109 | each template index is offset by the prior vertex count |
| Meshes.PlaceInto | Assets/Scripts/LSystemInterpreter.cs:102-104 | the vertex loop writes the placed template behind the copied prefix and nothing else |
| Meshes.ShiftInto | Assets/Scripts/LSystemInterpreter.cs:106-109 | the index loop writes the shifted template indices behind the copied prefix and nothing else |
| Meshes.Joined | Assets/Scripts/LSystemInterpreter.cs:92-100 | a fresh array plus two copies holds the current buffer followed by the template's |
| Meshes.JoinedVertices | Assets/Scripts/LSystemInterpreter.cs:92-104 | the new vertex buffer is the old one followed by the placed template |
| Meshes.JoinedIndices | Assets/Scripts/LSystemInterpreter.cs:94-109 | the new index buffer is the old one followed by the shifted template |
| Meshes.AppendSegment | Assets/Scripts/LSystemInterpreter.cs:89-117 | the append preserves the existing buffers as a prefix; new vertices are placed and new indices shifted by the prior vertex count |
| Meshes.AppendInRange | Assets/Scripts/LSystemInterpreter.cs:89-117 | appending keeps one normal and one UV per vertex and every index in range, and adds the template's vertex count |
| Meshes.Chunks | Assets/Scripts/LSystemInterpreter.cs:260 | after the loop the current chunk is always sealed, as the last chunk |
| Meshes.PlaceKeepsValid | Assets/Scripts/LSystemInterpreter.cs:83-87 | placing a template keeps every chunk within 65000 vertices and in range, seals only when current plus template exceeds 65000, and adds the template's vertices to the total |
| Meshes.UnpackedValid | Assets/Scripts/LSystemInterpreter.cs:189 | the empty start is valid and holds no vertices |
| Drawing.FoliageShape | Assets/Scripts/LSystemInterpreter.cs:137-146 | the leaf loops place as many leaves as the rows hold, row by row, all at the turtle |
| Drawing.ThicknessShares | Assets/Scripts/LSystemInterpreter.cs:73 | narrow branches at level `n` have thickness `segmentWidth * 0.5 / (n + 1)`; otherwise it is `segmentWidth * 0.5` |
| Drawing.PaintEffect | Assets/Scripts/LSystemInterpreter.cs:196-258 | gives what one symbol changes (see below) |
| Drawing.PaintAllAbort | Assets/Scripts/LSystemInterpreter.cs:257 | once a prefix throws, the interpretation throws the same |
| Drawing.PaintAllSnoc | Assets/Scripts/LSystemInterpreter.cs:193-259 | painting one more symbol continues from the canvas the prefix left |
| Drawing.PaintFollowsWalk | Assets/Scripts/LSystemInterpreter.cs:193-259 | the interpretation moves the turtle exactly as the opcode walk does, and throws exactly when the walk does |
| Drawing.PaintPacking | Assets/Scripts/LSystemInterpreter.cs:83-117 | every chunk stays within 65000 vertices and in range, sealed chunks are never changed, and each `F` adds one template's vertices |
| Drawing.PaintPackingStep | Assets/Scripts/LSystemInterpreter.cs:196-212 | one symbol keeps the chunks valid and adds one template's vertices exactly for `F` |
| Drawing.PaintLeaves | Assets/Scripts/LSystemInterpreter.cs:246-256 | the leaves are those of the walk's branch ends in order, none when foliage is off |
| Drawing.DecorationsCount | Assets/Scripts/LSystemInterpreter.cs:248-256 | `k` leaves per `]` with foliage on, none with it off |
| Drawing.PictureShape | Assets/Scripts/LSystemInterpreter.cs:193-260 | gives the shape of a completed interpretation (see below) |
| Interpreter.OnTurtle | Assets/Scripts/LSystemInterpreter.cs:104 | a template vertex goes to `turtle.position + turtle.direction * vertex` |
| Interpreter.Grid | Assets/Scripts/LSystemInterpreter.cs:137-139 | `leafAxialDensity` rows of `leafRadialDensity` leaves, none for a count below one |
| Interpreter.TemplateShape | Assets/Scripts/LSystemInterpreter.cs:73-74 | with `A >= 1` and `R >= 0`, a level's cylinder builds exactly when both buffer sizes fit an `int`; a cylinder that builds is well formed; a usable one has `A * (R + 1)` vertices and indices in range |
| Interpreter.TemplateWellFormed | Assets/Scripts/LSystemInterpreter.cs:78-81 | a template that builds has one normal and one UV per vertex |
| Interpreter.CreateSegment | Assets/Scripts/LSystemInterpreter.cs:49-120 | see below |
| Interpreter.CachedTemplate | Assets/Scripts/LSystemInterpreter.cs:69-76 | a cached level gives back its stored cylinder, an uncached one builds it and stores it; either way the result is that level's template, the cache stays correct, and it throws exactly when building throws |
| Interpreter.PlaceSegment | Assets/Scripts/LSystemInterpreter.cs:83-117 | the chunks become `Place` of the segment: sealed first past 65000 vertices, then appended |
| Interpreter.AddFoliageAt | Assets/Scripts/LSystemInterpreter.cs:122-147 | the nested loops append the grid of leaves hung from the turtle |
| Interpreter.Interpret | Assets/Scripts/LSystemInterpreter.cs:166-262 | the opcode loop, with the turtle, stack, cache, chunks and leaves, computes the interpretation of the module string |
| Interpreter.Execute | Assets/Scripts/LSystemInterpreter.cs:196-258 | one pass of the opcode loop does to the turtle, stack, chunks and leaves what painting the symbol does to the canvas, throws exactly when painting does, and keeps the cache correct |
| Interpreter.InterpretOutcome | Assets/Scripts/LSystemInterpreter.cs:241-258 | with sample counts whose cylinder builds, `Interpret` completes exactly when no `]` finds the stack empty, and otherwise throws `InvalidOperationException` |
| Interpreter.InterpretShape | Assets/Scripts/LSystemInterpreter.cs:193-260 | see below |
| Interpreter.PainterBuilds | Assets/Scripts/LSystemInterpreter.cs:68-76 | with sample counts whose buffer sizes fit an `int`, every level's template builds |
| Interpreter.PainterFits | Assets/Scripts/LSystemInterpreter.cs:68-87 | with a template of at most 65000 vertices, every level's template builds and fits a chunk, and each `]` places the whole leaf grid |
| Interpreter.GridFoliage | Assets/Scripts/LSystemInterpreter.cs:137-146 | a leaf grid holds `leafAxialDensity * leafRadialDensity` leaves, none when either is below one |
| Interpreter.UniformTotal | Assets/Scripts/LSystemInterpreter.cs:137-139 | rows of equal width `w` hold `rows * w` leaves |
| ProceduralMeshes.CreateCylinder | Assets/Scripts/ProceduralMeshes.cs:123-216 | the allocations with wrapped sizes, the ring loop and the index loop compute the cylinder function, exceptions included |
| ProceduralMeshes.CylinderCases | Assets/Scripts/ProceduralMeshes.cs:127-207 | the outcome of each branch in the order the method meets them: a negative size, an empty sample table, a loop running off its buffer, skipped loops, and the built mesh |
| ProceduralMeshes.DefaultMesh | Assets/Scripts/ProceduralMeshes.cs:131-134 | buffers that no loop wrote hold their default values |
| ProceduralMeshes.FillCylinder | Assets/Scripts/ProceduralMeshes.cs:156-207 | on buffers of the exact sizes, the two loops build the specified cylinder |
| ProceduralMeshes.CylinderRings | Assets/Scripts/ProceduralMeshes.cs:156-187 | the ring loop fills the vertex, normal and UV buffers ring by ring |
| ProceduralMeshes.CylinderRingStep | Assets/Scripts/ProceduralMeshes.cs:156-187 | one pass of the ring loop appends ring `a` and keeps the rest |
| ProceduralMeshes.CylinderRingAt | Assets/Scripts/ProceduralMeshes.cs:165-186 | the inner loop and the seam write ring `a`, `R + 1` slots |
| ProceduralMeshes.CylinderSamplesAt | Assets/Scripts/ProceduralMeshes.cs:166-178 | the inner loop writes the `R` samples of ring `a` from slot `save` on and keeps the slots after them |
| ProceduralMeshes.CylinderSeamAt | Assets/Scripts/ProceduralMeshes.cs:180-184 | the seam slot closes the ring by copying its first slot, with u = 1 |
| ProceduralMeshes.CylinderSampleAt | Assets/Scripts/ProceduralMeshes.cs:168-177 | one sample writes its point, normal and `(r/R, a/(A-1))` |
| ProceduralMeshes.CylinderBandAt | Assets/Scripts/ProceduralMeshes.cs:193-206 | one band writes the `6R` quad indices between rings `a` and `a + 1` |
| ProceduralMeshes.CylinderIndices | Assets/Scripts/ProceduralMeshes.cs:190-207 | the index loop fills the whole index buffer with the `A - 1` bands |
| ProceduralMeshes.CylinderOutcome | Assets/Scripts/ProceduralMeshes.cs:127-151 | gives when the cylinder builds and what it throws otherwise (see below) |
| ProceduralMeshes.CylinderCounts | Assets/Scripts/ProceduralMeshes.cs:127-128 | `axisSamples * (radialSamples + 1)` vertices with one normal and UV each, and `3 * 2 * (axisSamples - 1) * radialSamples` indices |
| ProceduralMeshes.CylinderVertex | Assets/Scripts/ProceduralMeshes.cs:166-178 | sample `r` of ring `a` sits at `a * (R + 1) + r` with its point, normal and UV `(r/R, a/(A-1))` |
| ProceduralMeshes.CylinderSeam | Assets/Scripts/ProceduralMeshes.cs:165-184 | the last vertex and normal of each ring copy the ring's first, and its u is 1 |
| ProceduralMeshes.CylinderQuadAt | Assets/Scripts/ProceduralMeshes.cs:191-206 | the quad at ring `a`, sample `r` is `(i0, i1, i2)`, `(i1, i3, i2)` at slot `6 * (a * R + r)` |
| ProceduralMeshes.CylinderQuadSlot | Assets/Scripts/ProceduralMeshes.cs:198-205 | slot `6r + k` of a band holds corner `k` of quad `r` |
| ProceduralMeshes.CylinderQuadsUniform | Assets/Scripts/ProceduralMeshes.cs:198-205 | each quad writes six indices |
| ProceduralMeshes.CylinderIndicesInRange | Assets/Scripts/ProceduralMeshes.cs:191-206 | every cylinder index names one of its vertices |
| ProceduralMeshes.CreatePlane | Assets/Scripts/ProceduralMeshes.cs:11-121 | the allocations with wrapped sizes and the vertex and index loops of `CreateXYPlane` and `CreateXZPlane` compute the plane function, exceptions included |
| ProceduralMeshes.PlaneRowAt | Assets/Scripts/ProceduralMeshes.cs:27-34 | one row of the vertex loop appends `xSegments + 1` points, up normals and UVs |
| ProceduralMeshes.PlaneVertices | Assets/Scripts/ProceduralMeshes.cs:24-36 | the vertex loop fills the buffers row-major, and writes nothing for a negative count |
| ProceduralMeshes.PlaneBandAt | Assets/Scripts/ProceduralMeshes.cs:42-56 | one row of the index loop writes its `6 * xSegments` cell indices |
| ProceduralMeshes.PlaneIndices | Assets/Scripts/ProceduralMeshes.cs:39-57 | the index loop fills the whole index buffer band by band |
| ProceduralMeshes.PlaneOutcome | Assets/Scripts/ProceduralMeshes.cs:18-57 | see below |
| ProceduralMeshes.PlaneCounts | Assets/Scripts/ProceduralMeshes.cs:18-39 | `(xSeg + 1) * (ySeg + 1)` vertices with one normal and UV each, and `6 * xSeg * ySeg` indices |
| ProceduralMeshes.PlaneVertex | Assets/Scripts/ProceduralMeshes.cs:24-33 | the vertex at row `y`, column `x` sits at `y * (xSeg + 1) + x` with its point, the up normal and UV `(x/xSeg, y/ySeg)` |
| ProceduralMeshes.PlaneNormalsUp | Assets/Scripts/ProceduralMeshes.cs:31 | every normal is up |
| ProceduralMeshes.PlaneCellAt | Assets/Scripts/ProceduralMeshes.cs:44-55 | each cell emits `(i2, i1, i0)` and `(i2, i0, i3)` at its slot |
| ProceduralMeshes.PlaneIndicesInRange | Assets/Scripts/ProceduralMeshes.cs:40-56 | every plane index names one of its vertices |
| ProceduralMeshes.CreateSphere | Assets/Scripts/ProceduralMeshes.cs:218-410 | the allocations with wrapped sizes, the sphere's loops, checks and winding pass compute the sphere function, exceptions included |
| ProceduralMeshes.SphereEarly | Assets/Scripts/ProceduralMeshes.cs:222-251 | a negative wrapped size throws `Overflow` at allocation; an empty sine table, or a ring loop longer than its buffer, throws `IndexOutOfRange` |
| ProceduralMeshes.WrapTimesThree | Assets/Scripts/ProceduralMeshes.cs:223-228 | wrapping `triangleQuantity` before multiplying by 3 gives the same `int` as wrapping the whole product |
| ProceduralMeshes.FillSphere | Assets/Scripts/ProceduralMeshes.cs:230-404 | the sphere's loops, once the arrays exist, compute the sphere function |
| ProceduralMeshes.ConnectSphere | Assets/Scripts/ProceduralMeshes.cs:312-404 | the slot-count check and the three range checks, then the connectivity, give the sphere function |
| ProceduralMeshes.SphereConnectivity | Assets/Scripts/ProceduralMeshes.cs:340-404 | once every check passed, the index loops give the specified sphere, or `IndexOutOfRange` for 2 segments and `R > 0` |
| ProceduralMeshes.SpherePoles | Assets/Scripts/ProceduralMeshes.cs:289-309 | the two pole writes go through exactly when two slots remain, and then append the south and north poles with their UVs |
| ProceduralMeshes.SphereSmallCases | Assets/Scripts/ProceduralMeshes.cs:222-312 | with fewer than 2 segments the vertex count is never 2; otherwise the rings fill all but the two pole slots |
| ProceduralMeshes.SphereIndicesFit | Assets/Scripts/ProceduralMeshes.cs:223-228 | once the range checks passed, the index count does not wrap |
| ProceduralMeshes.SphereGeometry | Assets/Scripts/ProceduralMeshes.cs:249-310 | the rings, then the south and north poles with their UVs; a sphere of fewer than 2 segments throws before the poles |
| ProceduralMeshes.SphereRings | Assets/Scripts/ProceduralMeshes.cs:251-288 | the ring loop writes `(zSegments - 2) * (R + 1)` slots, ring by ring |
| ProceduralMeshes.SphereRingAt | Assets/Scripts/ProceduralMeshes.cs:263-287 | one ring writes its `R` samples and the seam |
| ProceduralMeshes.SphereSampleAt | Assets/Scripts/ProceduralMeshes.cs:266-276 | one sample writes its point and UV |
| ProceduralMeshes.SphereSeamAt | Assets/Scripts/ProceduralMeshes.cs:279-287 | the seam slot copies the ring's first vertex, with u = 1 |
| ProceduralMeshes.SphereTopology | Assets/Scripts/ProceduralMeshes.cs:340-402 | the bands, the two fans and the winding pass fill the index buffer; with 2 segments and `R > 0` the fans throw |
| ProceduralMeshes.SphereBands | Assets/Scripts/ProceduralMeshes.cs:341-360 | the band loop writes `zSegments - 3` bands of `6R` indices |
| ProceduralMeshes.SphereBandAt | Assets/Scripts/ProceduralMeshes.cs:345-359 | one band writes its quads `(i0, i2, i1)`, `(i1, i2, i3)` |
| ProceduralMeshes.FanInto | Assets/Scripts/ProceduralMeshes.cs:362-383 | a pole loop writes its `R` triangles in order |
| ProceduralMeshes.Rewind | Assets/Scripts/ProceduralMeshes.cs:395-402 | the in-place winding loop turns the buffer into its rewound form |
| ProceduralMeshes.RewindAt | Assets/Scripts/ProceduralMeshes.cs:396-402 | one pass rewinds the next triangle and keeps the rest |
| ProceduralMeshes.SwapEnds | Assets/Scripts/ProceduralMeshes.cs:398-401 | the swap exchanges a triangle's first and third index |
| ProceduralMeshes.Rewound | Assets/Scripts/ProceduralMeshes.cs:396-402 | the rewound buffer has the same length |
| ProceduralMeshes.RewoundStep | Assets/Scripts/ProceduralMeshes.cs:396-402 | rewinding goes triangle by triangle |
| ProceduralMeshes.RewoundAppend | Assets/Scripts/ProceduralMeshes.cs:396-402 | rewinding distributes over whole-triangle concatenation |
| ProceduralMeshes.RewoundAt | Assets/Scripts/ProceduralMeshes.cs:396-402 | the winding pass swaps the first and third index of every triangle and leaves the middle one |
| ProceduralMeshes.RewoundTwice | Assets/Scripts/ProceduralMeshes.cs:396-402 | rewinding twice gives the buffer back |
| ProceduralMeshes.RewoundPermutes | Assets/Scripts/ProceduralMeshes.cs:396-402 | rewinding keeps the same indices, each as often |
| ProceduralMeshes.SphereOutcome | Assets/Scripts/ProceduralMeshes.cs:222-336 | gives when the sphere builds and what it throws otherwise (see below) |
| ProceduralMeshes.SphereSucceeds | Assets/Scripts/ProceduralMeshes.cs:222-336 | the sphere builds exactly under the four conditions of `SphereOutcome`, and throws nothing but `Overflow`, `IndexOutOfRange` and the message-less exception |
| ProceduralMeshes.SphereBuilds | Assets/Scripts/ProceduralMeshes.cs:312-336 | under those four conditions the sphere builds |
| ProceduralMeshes.SphereRejects | Assets/Scripts/ProceduralMeshes.cs:312-336 | without wrap-around the message-less exception comes exactly from the range checks; a vertex count past `int.MaxValue` fails at allocation or in the ring loop |
| ProceduralMeshes.SphereCases | Assets/Scripts/ProceduralMeshes.cs:312-336 | gives which check throws for each kind of input (see below) |
| ProceduralMeshes.SphereVertexCount | Assets/Scripts/ProceduralMeshes.cs:222-310 | `vertexQuantity` vertices, the south pole at `vq - 2` and the north pole at `vq - 1` |
| ProceduralMeshes.SphereUVCount | Assets/Scripts/ProceduralMeshes.cs:222-310 | `vertexQuantity` UVs, the poles' being `(1/2, 1/2)` and `(1/2, 1)` |
| ProceduralMeshes.SphereTriangleCount | Assets/Scripts/ProceduralMeshes.cs:223-383 | the connectivity fills `3 * 2 * (zSegments - 2) * R` indices |
| ProceduralMeshes.SphereVertex | Assets/Scripts/ProceduralMeshes.cs:264-276 | sample `r` of ring `zIndex - 1` sits at `(zIndex - 1) * (R + 1) + r` with its point and UV |
| ProceduralMeshes.SphereSeam | Assets/Scripts/ProceduralMeshes.cs:279-285 | the last slot of each ring repeats its first vertex, with u = 1 |
| ProceduralMeshes.SphereWinding | Assets/Scripts/ProceduralMeshes.cs:343-402 | the final index buffer, triangle by triangle: wound bands, south cap and north cap |
| ProceduralMeshes.SphereIndicesInRange | Assets/Scripts/ProceduralMeshes.cs:343-383 | every sphere index is below `vertexQuantity` |
| LSystems.LoadReads | Assets/Scripts/LSystem.cs:106-131 | one effect per line, each line's effect being its own reading |
| LSystems.LoadReadByKind | Assets/Scripts/LSystem.cs:107-130 | gives a line's effect for each kind of line (see below) |
| LSystems.LoadersAgree | Assets/Scripts/LSystem.cs:127-130 | gives how `LoadFromFile` and the parser compare on a line (see below) |
| LSystems.ThreeByThreeFits | Assets/Scripts/LSystem.cs:177 | the 3 x 3 cylinder always builds, with 12 vertices, well-formed buffers and indices in range |
| LSystems.LeafCount | Assets/Scripts/LSystem.cs:240-250 | `AddFoliageAt` places exactly 9 leaves, 6 then 3 |
| LSystems.PaintingFits | Assets/Scripts/LSystem.cs:168-221 | every segment builds and fits a chunk when the cylinder does, and each `]` with foliage places 9 leaves |
| LSystems.PaintingOutcome | Assets/Scripts/LSystem.cs:281-289 | `Interpret` completes exactly when no `]` finds the stack empty, and otherwise throws `InvalidOperationException` |
| LSystems.PaintingShape | Assets/Scripts/LSystem.cs:261-292 | see below |
| LSystems.ThreeByThreeShape | Assets/Scripts/LSystem.cs:177-266 | with the 3 x 3 cylinder the chunks hold 12 vertices per `F` |
| LSystems.LSystem.constructor | Assets/Scripts/LSystem.cs:9-34 | the serialized fields hold the given values; the rule set, module string, chunks and leaves start empty |
| LSystems.LSystem.LoadLine | Assets/Scripts/LSystem.cs:107-130 | see below |
| LSystems.LSystem.LoadEntry | Assets/Scripts/LSystem.cs:114-129 | a setting or rule line changes the fields as its effect says, or throws before changing anything |
| LSystems.LSystem.LoadSetting | Assets/Scripts/LSystem.cs:114-125 | a setting line never adds a rule; it sets its field as its effect says, or throws before changing anything |
| LSystems.LSystem.LoadAngle | Assets/Scripts/LSystem.cs:118-121 | the parsed angle is stored, or `float.Parse`'s exception is thrown with the fields unchanged |
| LSystems.LSystem.LoadDerivations | Assets/Scripts/LSystem.cs:122-125 | the parsed number of derivations is stored, or `int.Parse`'s exception is thrown with the fields unchanged |
| LSystems.LSystem.LoadRule | Assets/Scripts/LSystem.cs:126-129 | the built rule joins the set as its effect says, or the exception is thrown with nothing changed |
| LSystems.LSystem.AddBuilt | Assets/Scripts/LSystem.cs:126-127 | adding a built rule throws `NullReferenceException` for `null` and `Build`'s exception when it threw, changing nothing; otherwise the rule joins the set as `Apply` of its effect says |
| LSystems.LSystem.LoadStep | Assets/Scripts/LSystem.cs:106-131 | after the lines before it applied, a line either applies one more effect and adds its rule, or is the first failing line and gives the exception of all the lines, changing nothing |
| LSystems.LSystem.LoadLines | Assets/Scripts/LSystem.cs:106-131 | see below |
| LSystems.LSystem.LoadFromFile | Assets/Scripts/LSystem.cs:94-136 | see below |
| LSystems.LSystem.Derive | Assets/Scripts/LSystem.cs:138-157 | see below |
| LSystems.LSystem.CreateNewChunk | Assets/Scripts/LSystem.cs:159-166 | the mesh is added as the last chunk |
| LSystems.LSystem.CreateSegment | Assets/Scripts/LSystem.cs:168-221 | the chunks and current mesh become `Place` of the segment's cylinder at `position - direction * (width, height, 0) / 2`, sealing past 65000 vertices |
| LSystems.LSystem.AddFoliageAt | Assets/Scripts/LSystem.cs:238-251 | the leaves grow by the rows 6 and 3 hung from the turtle |
| LSystems.LSystem.Execute | Assets/Scripts/LSystem.cs:262-289 | one pass of the opcode loop does to the fields what painting the symbol does to the canvas, and throws exactly when painting does |
| LSystems.LSystem.RunOpcodes | Assets/Scripts/LSystem.cs:260-290 | the opcode loop leaves in the chunks, current mesh and leaves what painting the module string gives, and throws exactly when painting does |
| LSystems.LSystem.Interpret | Assets/Scripts/LSystem.cs:253-295 | the chunks and leaves become the interpretation of the module string, which throws exactly when painting does |

Rows whose third cell says "see below":

- **ProductionRules.BuildMeaning.** On a line with one `=`, `Build` throws:
  - `ArgumentOutOfRange` exactly when the right side is empty or starts with `)`;
  - `IndexOutOfRange` exactly when the right side has no `)`;
  - `Format` exactly when the probability is not a number;
  - `Overflow` exactly when it is a number out of `float`'s range.

  Otherwise it gives the rule with:
  - the trimmed left side as predecessor;
  - the parsed text between the right side's first character and its first `)` as probability;
  - the text between the first and second `)` as successor.
- **RuleSets.OwnMatchMeaning.** `Match` returns:
  - null exactly for a module with no rules;
  - the only rule of a one-rule list, whatever the draw;
  - for several rules, the first rule whose own probability is at most the draw. It throws exactly when none is.
- **ProductionMatcher.CumulativeMatchMeaning.** `Match` returns:
  - null exactly for a module that is not a key;
  - `matches[0]` for a one-rule list, whatever the draw;
  - for several rules, the first rule whose running prefix sum is at most the draw. It throws exactly when none is.
- **Turtles.RunShape.** A run:
  - throws `InvalidOperationException` exactly when some `]` finds the stack empty;
  - otherwise leaves the stack at the count of open `[`, with one segment per `F` and one branch end per `]`.
- **Drawing.PaintEffect.** One symbol:
  - moves the turtle as the walk does;
  - for `F`, places the template of the stack height at the emitted pose;
  - for `]` with foliage on, adds the leaves of the pose before the pop;
  - changes nothing else.
- **Drawing.PictureShape.** A completed interpretation:
  - was balanced;
  - has at least one chunk, every chunk well formed, in range and within 65000 vertices;
  - holds `size` vertices per `F`;
  - has `k` leaves per `]` with foliage on.
- **Interpreter.CreateSegment.** The cached or newly built template of the nesting level is placed at the turtle. The chunk is sealed first when it would pass 65000 vertices. The cache then holds that level's cylinder and only correct cylinders. Building a template throws exactly when `CreateCylinder` does.
- **Interpreter.InterpretShape.** A completed interpretation has:
  - at least one chunk, all within 65000 vertices and in range;
  - `A * (R + 1)` vertices per `F`;
  - `leafAxialDensity * leafRadialDensity` leaves per `]` with foliage on, none with it off.
- **ProceduralMeshes.CylinderOutcome.** With `A = axisSamples` and `R = radialSamples`:
  - for `A >= 1` and `R >= 0`, the cylinder builds exactly when `A * (R + 1)` and `3 * 2 * (A - 1) * R` fit an `int`, and is then the specified mesh;
  - with `A <= 0` the loops are skipped, and a cylinder that builds is well formed with every vertex and index at its default;
  - it throws only `Overflow` or `IndexOutOfRange`;
  - when neither size wraps, it builds exactly when `R >= 0` and either `A >= 1` or both counts are 0, and it throws `IndexOutOfRange` exactly when `R == -1` and `A <= 1`;
  - `A = 65536`, `R = 65535` throws `Overflow`, since the index count wraps negative;
  - `A = 2`, `R = 1000000000` throws `IndexOutOfRange`, since the index count wraps to a positive size that the index loop overruns.
- **ProceduralMeshes.PlaneOutcome.** With `xSegments` and `ySegments` at least 0, the plane builds exactly when `(xSeg + 1) * (ySeg + 1)` and `6 * xSeg * ySeg` fit an `int`, and is then the specified mesh. It throws only `Overflow` or `IndexOutOfRange`. When neither size wraps, it builds exactly when neither size is negative, and otherwise throws `Overflow`. `65535 x 65535` throws `IndexOutOfRange`: the vertex count wraps to 0 and the vertex loop overruns the empty buffers.
- **ProceduralMeshes.SphereOutcome.** The sphere builds exactly when:
  - `0 <= R < 32767`;
  - `zSegments >= 2`;
  - `vertexQuantity < 32768`;
  - `R == 0` when `zSegments == 2`.

  It throws only `Overflow`, `IndexOutOfRange` or the message-less exception. When no size wraps, the message-less exception comes exactly from the range checks. A vertex count past `int.MaxValue` fails at allocation or in the ring loop. `zSegments = 131074`, `R = 32766` throws `Overflow` at allocation. `zSegments = 0`, `R = 2147483646` makes the vertex count wrap to 4. The poles then end at slot 2, and the `i != vertexQuantity` check throws.
- **ProceduralMeshes.SphereCases.** Once the arrays exist:
  - fewer than 2 segments throws `IndexOutOfRange` at the poles;
  - the range checks throw the message-less exception;
  - 2 segments with `R > 0` throws `IndexOutOfRange` in the fans;
  - otherwise the sphere is the specified mesh.
- **LSystems.LoadReadByKind.** A line's effect by its kind:
  - blank and comment lines are skipped;
  - a lone `/` throws;
  - `axiom`, `angle` and `number of derivations` lines set their value, parsed, or throw `Format` or `Overflow`;
  - any other line adds its rule, or throws `Build`'s exception, or throws `NullReferenceException` when `Build` returns null.
- **LSystems.LoadersAgree.** On a trimmed line, `LoadFromFile` and the parser agree, except on a rule line without exactly one `=`. The parser skips that line and `LoadFromFile` throws `NullReferenceException`.
- **LSystems.PaintingShape.** A completed `Interpret` has:
  - at least one chunk, every chunk valid;
  - the cylinder's vertex count per `F`;
  - 9 leaves per `]` with foliage on.
- **LSystems.LSystem.LoadLine.** The line changes the fields as its effect says. It throws exactly when its effect fails, and then before changing anything.
- **LSystems.LSystem.LoadLines.** The loop applies every line's effect in order and adds their rules to the set. On an exception, the fields are those the lines before the first failing line set.
- **LSystems.LSystem.LoadFromFile.** It completes exactly when the lines and then the probability check succeed, and otherwise throws their exception. The axiom, angle, derivation count and rule set are the result of the lines. After an exception they are what the lines before the first failing one made them.
- **LSystems.LSystem.Derive.** `_moduleString` becomes `max(1, n)` generations of the axiom under the rule set. On an exception it holds the last completed generation.

## Left out

- **Unity plumbing.** Scene objects, transforms, materials, renderers and `CreateLeafBillboard` are not modelled. `CreateNewChunk` is modelled as appending the mesh to a list of chunks.
- **`LSystemExecutor.cs`.** Not modelled beyond which store it hands to `Derive`. It is glue code and a floating-point bounding box.
- **Outside `LSystem.cs`'s core.** Reading the file with `StreamReader` is left out: `LoadFromFile` takes the lines. `Start`, `Update`, `DestroyChunksAndLeaves`, `UpdateColliderBounds` and `AdjustCamera` are left out as well. They are I/O, scene management and floating-point camera math.
- **Floating-point geometry.** Vector and quaternion arithmetic, `Mathf.Cos`/`Sin`/`Sqrt`, normalisation, sphere colours and leaf rotation angles are uninterpreted operations on opaque types. Texture coordinates are exact ratios `n/d`, not floats.
- **Float32 rounding of probabilities.** Probabilities are exact reals. The sums that `CheckProbabilities` compares with 1 are therefore exact sums. A float32 sum that rounds to 1 is not modelled.
- **Parsing.** `float.Parse` and `int.Parse` are uninterpreted functions to `Parsed`. Which texts are numbers, and which are out of range, is not modelled.
- **`UnityEngine.Random.value`.** It is the draw function `chances`. Draws are not constrained to `[0, 1]`.
- **Unity mesh calls.** `Mesh.Optimize`, `RecalculateBounds` and `RecalculateNormals` are taken not to change the buffers the model tracks. The sphere's normals and colours are not tracked.
- **`ProductionRules` and `Get`.** `LSystem.cs` uses this type, which is not part of this model. It is modelled by `ProductionRuleSet`, with `Get` as its `Match`. `Add(null)` throws `NullReferenceException` when it reads the predecessor.
- **The 8-argument `CreateCylinder`.** `LSystem.cs` calls this overload, which is not part of this model. It is modelled as a cylinder template function of the thickness. `LSystems.ThreeByThree` builds it from the 4-argument `CreateCylinder` with 3 axis and 3 radial samples.
- **The two plane builders as one.** `CreateXYPlane` and `CreateXZPlane` differ only in the axis their points advance along: `height` and the y axis, or `depth` and the z axis. Both are `ProceduralMeshes.CreatePlane`, with the sample points passed in as a function of the column and row.
- **Scene state after an exception.** The chunks and leaves that `LSystem.Interpret` has already created when `Stack.Pop` throws are not stated. The contract of `LSystems.LSystem.Interpret` only says that it throws.
- **`_moduleString` before `Derive`.** A null `_moduleString` before the first `Derive` is modelled as the empty string.
- **Culture-sensitive `IndexOf`.** `String.IndexOf(string)` compares with the current culture's rules. `Text.IndexOf` compares character by character. Ignorable characters and culture-specific equivalences are not modelled.
- **Writes before an `IndexOutOfRangeException`.** `CreateCylinder`, `CreatePlane` and `CreateSphere` throw as soon as a loop would run off its wrapped buffer, without modelling the writes made before. The buffers are local, so no caller sees them.
- Deriver.RewriteGeneration, LSystems.LSystem.Derive, Text.Trim, Text.Split, Text.IndexOf: strings are modelled as sequences of Unicode code points (Dafny `char`), not as the UTF-16 code units of a C# `string`. The two agree on text below U+10000. A grammar that uses characters above U+FFFF behaves differently: C# `Derive` reads one code unit at a time, so a rule whose predecessor is such a character (a surrogate pair) never fires, while the model rewrites it; and the positions that `Trim`, `Split` and `IndexOf` work with count such a character once in the model and twice in C#.
- **Out of memory.** `new T[n]` for a large non-negative `n` is taken to succeed. An `OutOfMemoryException` is not modelled.
- CreatePlane, Plane and PlaneOutcome require `PlaneEnds`. It excludes a negative `xSegments` with `ySegments == int.MaxValue` and a non-negative wrapped vertex count. There the row loop `y <= ySegments` never ends, because `y++` wraps, and the C# call never returns.
- InterpretShape keeps the bound of 65000 vertices per cylinder. A larger template goes into a chunk of its own, and that chunk exceeds 65000 vertices, so the "every chunk is within 65000 vertices" clause needs the bound. `InterpretOutcome`, which says nothing about chunk sizes, only needs the cylinder to build.
- **Loop helpers.** Some of the source's loops, loop bodies and branches are split into methods of their own:
  - `LSystems.LSystem.Execute`, `RunOpcodes`, `LoadLine`, `LoadEntry`, `LoadSetting`, `LoadAngle`, `LoadDerivations`, `LoadRule`, `LoadStep`, `LoadLines` and `AddBuilt`;
  - `Interpreter.Execute`, `CachedTemplate` and `PlaceSegment`;
  - `ProceduralMeshes.FillCylinder`, `DefaultMesh`, `FillSphere`, `ConnectSphere`, `SphereConnectivity` and `SpherePoles`.
  - `LoadLines` takes the line effects as a ghost argument.

## Findings

| source | as written | input that shows it | evidently intended | confidence | as-written member | corrected member |
|---|---|---|---|---|---|---|
| Assets/Scripts/ProductionMatcher.cs:13-21 | picks the first rule whose running prefix sum is at most the draw, else throws "Should never happen!" | rules `A=(0.5)x`, `A=(0.5)y`, which pass `CheckProbabilities`, and a draw of 0.25 | pick the rule whose interval `[sum before, sum through)` holds the draw, so a valid grammar never throws | not executed | ProductionMatcher.CumulativeMatchThrows | ProductionMatcher.WeightedMatchMeaning |
| Assets/Scripts/ProductionRuleSet.cs:39-46 | picks the first rule whose own probability is at most the draw, else throws | the same two rules and the draw 0.25 | the same interval selection | not executed | RuleSets.OwnMatchThrows | Deriver.WeightedDerivationTotal |

In the model, `Deriver.Weighted` is a derivation policy that uses the corrected matcher. For the two stores as written, `Deriver.PolicyOf` keeps their own matchers.
