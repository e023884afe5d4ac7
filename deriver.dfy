/** LSystemDeriver.cs: `Math.Max(1, derivations)` generations, each
    rewriting every symbol of the module string that has rules into the
    successor of a matched rule and copying every other symbol. */
module Deriver {
  import opened Runtime
  import opened Productions
  import RuleSets
  import ProductionMatcher

  /** The matcher behind the rule table: `ProductionRuleSet.Match` and
      `ProductionMatcher.Match` as written, and the corrected weighted
      matcher. */
  datatype Policy = OwnProbability | Cumulative | Weighted

  function Choose(t: Table, policy: Policy, m: string, chance: real): Selection {
    match policy
    case OwnProbability => RuleSets.OwnMatch(t, m, chance)
    case Cumulative => ProductionMatcher.CumulativeMatch(t, m, chance)
    case Weighted => ProductionMatcher.WeightedMatch(t, m, chance)
  }

  /** What one symbol becomes: itself when it has no rules, else the chosen
      successor; a null match is dereferenced and an empty one throws. */
  function RewriteSymbol(t: Table, policy: Policy, c: char, chance: real): Result<string> {
    if [c] !in t then Ok([c])
    else
      match Choose(t, policy, [c], chance)
      case Selected(p) => Ok(p.successor)
      case NoRules => Throw(NullReference)
      case NothingSelected => Throw(ShouldNeverHappen)
  }

  /** One generation over `s`, the symbol at position `j` drawing
      `chances(j)`, stopping at the first exception. */
  function Rewrite(t: Table, policy: Policy, s: string, chances: nat -> real): Result<string> {
    if s == [] then Ok([])
    else
      match Rewrite(t, policy, s[..|s| - 1], chances)
      case Throw(e) => Throw(e)
      case Ok(out) =>
        match RewriteSymbol(t, policy, s[|s| - 1], chances(|s| - 1))
        case Throw(e) => Throw(e)
        case Ok(w) => Ok(out + w)
  }

  /** The draws of generation `g`. */
  function DrawsOf(chances: (nat, nat) -> real, g: nat): nat -> real {
    (j: nat) => chances(g, j)
  }

  /** `k` generations from `axiom`, generation `g` drawing `chances(g, j)`
      at position `j`. */
  function Generations(t: Table, policy: Policy, axiom: string, k: nat, chances: (nat, nat) -> real): Result<string> {
    if k == 0 then Ok(axiom)
    else
      match Generations(t, policy, axiom, k - 1, chances)
      case Throw(e) => Throw(e)
      case Ok(s) => Rewrite(t, policy, s, DrawsOf(chances, k - 1))
  }

  /** `Derive(axiom, angle, derivations, rules)`. */
  function Derivation(t: Table, policy: Policy, axiom: string, derivations: int,
                      chances: (nat, nat) -> real): Result<string>
  {
    Generations(t, policy, axiom, AtLeastOne(derivations), chances)
  }

  /** The rule store a derivation reads: a `ProductionRuleSet`, as the
      signature of `Derive` declares, or the parser's dictionary, as
      `LSystemExecutor` passes it. Both answer "contains" and "match". */
  datatype Store = RuleSet(rules: RuleSets.ProductionRuleSet) | Dictionary(productions: Table)

  ghost predicate StoreValid(store: Store)
    reads if store.RuleSet? then {store.rules} else {}
  {
    store.RuleSet? ==> store.rules.Valid()
  }

  function TableOf(store: Store): Table
    reads if store.RuleSet? then {store.rules} else {}
  {
    match store
    case RuleSet(rules) => rules.lookupTable
    case Dictionary(productions) => productions
  }

  function PolicyOf(store: Store): Policy {
    if store.RuleSet? then OwnProbability else Cumulative
  }

  /** "Contains": the symbol has rules. */
  function StoreContains(store: Store, symbol: string): (b: bool)
    requires StoreValid(store)
    reads if store.RuleSet? then {store.rules} else {}
    ensures b <==> symbol in TableOf(store)
  {
    match store
    case RuleSet(rules) => GroupIsFilter(rules.added, symbol); rules.Contains(symbol)
    case Dictionary(productions) => symbol in productions
  }

  /** "Match": the store's own matcher. */
  method StoreMatch(store: Store, symbol: string, chance: real) returns (r: Selection)
    ensures r == Choose(TableOf(store), PolicyOf(store), symbol, chance)
  {
    match store
    case RuleSet(rules) => r := rules.Match(symbol, chance);
    case Dictionary(productions) => r := ProductionMatcher.Match(symbol, productions, chance);
  }

  /** One generation of the rewrite loop of `Derive`. */
  method RewriteGeneration(moduleString: string, store: Store, chances: nat -> real)
    returns (r: Result<string>)
    requires StoreValid(store)
    ensures r == Rewrite(TableOf(store), PolicyOf(store), moduleString, chances)
  {
    var newModuleString := "";
    var j := 0;
    while j < |moduleString|
      invariant 0 <= j <= |moduleString|
      invariant Rewrite(TableOf(store), PolicyOf(store), moduleString[..j], chances) == Ok(newModuleString)
    {
      assert moduleString[..j + 1][..j] == moduleString[..j];
      var symbol := [moduleString[j]];
      if !StoreContains(store, symbol) {
        newModuleString := newModuleString + symbol;
        j := j + 1;
        continue;
      }
      var productionRule := StoreMatch(store, symbol, chances(j));
      if productionRule.NoRules? {
        RewriteAbort(TableOf(store), PolicyOf(store), moduleString, chances, j + 1);
        return Throw(NullReference);
      } else if productionRule.NothingSelected? {
        RewriteAbort(TableOf(store), PolicyOf(store), moduleString, chances, j + 1);
        return Throw(ShouldNeverHappen);
      }
      newModuleString := newModuleString + productionRule.production.successor;
      j := j + 1;
    }
    assert moduleString[..j] == moduleString;
    return Ok(newModuleString);
  }

  /** `LSystemDeriver.Derive`, with `Random.value` drawn as `chances`. The
      angle is not used. */
  method Derive(axiom: string, angle: real, derivations: int, store: Store,
                chances: (nat, nat) -> real) returns (moduleString: Result<string>)
    requires StoreValid(store)
    ensures moduleString == Derivation(TableOf(store), PolicyOf(store), axiom, derivations, chances)
  {
    var current := axiom;
    var i := 0;
    while i < AtLeastOne(derivations)
      invariant 0 <= i <= AtLeastOne(derivations)
      invariant Generations(TableOf(store), PolicyOf(store), axiom, i, chances) == Ok(current)
    {
      var next := RewriteGeneration(current, store, DrawsOf(chances, i));
      if next.Throw? {
        GenerationsAbort(TableOf(store), PolicyOf(store), axiom, chances, i + 1, AtLeastOne(derivations));
        return next;
      }
      current := next.value;
      i := i + 1;
    }
    return Ok(current);
  }

  /** Once a prefix of a generation throws, the generation throws the same. */
  lemma {:induction false} RewriteAbort(t: Table, policy: Policy, s: string, chances: nat -> real, k: nat)
    requires k <= |s| && Rewrite(t, policy, s[..k], chances).Throw?
    ensures Rewrite(t, policy, s, chances) == Rewrite(t, policy, s[..k], chances)
    decreases |s| - k
  {
    if k < |s| {
      assert s[..k + 1][..k] == s[..k];
      RewriteAbort(t, policy, s, chances, k + 1);
    } else {
      assert s[..k] == s;
    }
  }

  /** Once a generation throws, every later count of generations does. */
  lemma {:induction false} GenerationsAbort(t: Table, policy: Policy, axiom: string, chances: (nat, nat) -> real,
                                            k: nat, n: nat)
    requires k <= n && Generations(t, policy, axiom, k, chances).Throw?
    ensures Generations(t, policy, axiom, n, chances) == Generations(t, policy, axiom, k, chances)
    decreases n - k
  {
    if k < n {
      GenerationsAbort(t, policy, axiom, chances, k, n - 1);
    }
  }

  /** No symbol of `s` has rules. */
  predicate Inert(t: Table, s: string) {
    forall i :: 0 <= i < |s| ==> [s[i]] !in t
  }

  /** A generation copies a string none of whose symbols has rules. */
  lemma {:induction false} RewriteInert(t: Table, policy: Policy, s: string, chances: nat -> real)
    requires Inert(t, s)
    ensures Rewrite(t, policy, s, chances) == Ok(s)
  {
    if s != [] {
      var init := s[..|s| - 1];
      assert Inert(t, init) by {
        forall i | 0 <= i < |init| ensures [init[i]] !in t { assert init[i] == s[i]; }
      }
      RewriteInert(t, policy, init, chances);
      assert init + [s[|s| - 1]] == s;
    }
  }

  /** An axiom none of whose symbols has rules (in particular any axiom
      under an empty rule table) is the result of any number of
      generations, whatever the draws. */
  lemma {:induction false} DerivationInert(t: Table, policy: Policy, axiom: string, k: nat, chances: (nat, nat) -> real)
    requires Inert(t, axiom)
    ensures Generations(t, policy, axiom, k, chances) == Ok(axiom)
  {
    if k > 0 {
      DerivationInert(t, policy, axiom, k - 1, chances);
      RewriteInert(t, policy, axiom, DrawsOf(chances, k - 1));
    }
  }

  /** Every predecessor named in the table has exactly one rule. */
  predicate Deterministic(t: Table) {
    forall k :: k in t ==> |t[k]| == 1
  }

  /** The image of one symbol under a deterministic table. */
  function Image(t: Table, c: char): string {
    if [c] in t && t[[c]] != [] then t[[c]][0].successor else [c]
  }

  /** The image of a string: the images of its symbols, concatenated. */
  function Expand(t: Table, s: string): string {
    if s == [] then [] else Expand(t, s[..|s| - 1]) + Image(t, s[|s| - 1])
  }

  lemma {:induction false} ExpandAppend(t: Table, a: string, b: string)
    ensures Expand(t, a + b) == Expand(t, a) + Expand(t, b)
  {
    if b == [] {
      assert a + b == a;
    } else {
      assert (a + b)[..|a + b| - 1] == a + b[..|b| - 1];
      ExpandAppend(t, a, b[..|b| - 1]);
    }
  }

  /** With one rule per predecessor every policy rewrites each symbol into
      the successor of its rule, whatever the draws: a generation is the
      image of the string. */
  lemma {:induction false} RewriteDeterministic(t: Table, policy: Policy, s: string, chances: nat -> real)
    requires Deterministic(t)
    ensures Rewrite(t, policy, s, chances) == Ok(Expand(t, s))
  {
    if s != [] {
      RewriteDeterministic(t, policy, s[..|s| - 1], chances);
    }
  }

  /** The corrected matcher never throws on a table without empty lists,
      so neither does a derivation that uses it. */
  lemma {:induction false} WeightedDerivationTotal(t: Table, axiom: string, k: nat, chances: (nat, nat) -> real)
    requires forall m :: m in t ==> t[m] != []
    ensures Generations(t, Weighted, axiom, k, chances).Ok?
  {
    if k > 0 {
      WeightedDerivationTotal(t, axiom, k - 1, chances);
      var s := Generations(t, Weighted, axiom, k - 1, chances).value;
      WeightedRewriteTotal(t, s, DrawsOf(chances, k - 1));
    }
  }

  lemma {:induction false} WeightedRewriteTotal(t: Table, s: string, chances: nat -> real)
    requires forall m :: m in t ==> t[m] != []
    ensures Rewrite(t, Weighted, s, chances).Ok?
  {
    if s != [] {
      WeightedRewriteTotal(t, s[..|s| - 1], chances);
    }
  }

  /** `n` copies of `c`. */
  function Repeat(c: char, n: nat): (r: string)
    ensures |r| == n && forall i :: 0 <= i < n ==> r[i] == c
  {
    if n == 0 then [] else Repeat(c, n - 1) + [c]
  }

  function Pow2(k: nat): nat {
    if k == 0 then 1 else 2 * Pow2(k - 1)
  }

  /** The table of the grammar `F = (1)FF`. */
  const Doubling: Table := map["F" := [Production("F", "FF", 1.0)]]

  lemma {:induction false} ExpandDoubling(n: nat)
    ensures Expand(Doubling, Repeat('F', n)) == Repeat('F', 2 * n)
  {
    if n > 0 {
      ExpandDoubling(n - 1);
      assert Repeat('F', n)[..n - 1] == Repeat('F', n - 1);
      assert Repeat('F', 2 * (n - 1)) + "FF" == Repeat('F', 2 * n);
    }
  }

  /** Under `F = (1)FF`, `k` generations from `F` give `2^k` symbols `F`,
      whatever the matcher and the draws; three give `FFFFFFFF`. */
  lemma {:induction false} DoublingGenerations(policy: Policy, k: nat, chances: (nat, nat) -> real)
    ensures Generations(Doubling, policy, "F", k, chances) == Ok(Repeat('F', Pow2(k)))
  {
    if k == 0 {
      assert Repeat('F', 1) == "F";
    } else {
      var n := Pow2(k - 1);
      DoublingGenerations(policy, k - 1, chances);
      assert Deterministic(Doubling) by {
        assert Doubling.Keys == {"F"};
      }
      RewriteDeterministic(Doubling, policy, Repeat('F', n), DrawsOf(chances, k - 1));
      ExpandDoubling(n);
      assert Generations(Doubling, policy, "F", k, chances)
          == Rewrite(Doubling, policy, Repeat('F', n), DrawsOf(chances, k - 1));
    }
  }

  /** A derivation count below one runs a single generation. */
  lemma AtLeastOneGeneration(t: Table, policy: Policy, axiom: string, derivations: int, chances: (nat, nat) -> real)
    requires derivations <= 0
    ensures Derivation(t, policy, axiom, derivations, chances) == Derivation(t, policy, axiom, 1, chances)
  {
  }
}
