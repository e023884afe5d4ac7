/** The rewrite rule record of Production.cs (and its twin ProductionRule.cs)
    and the rule table the stores and the parser keep: a dictionary from
    predecessor to the list of its rules in the order they were added. */
module Productions {

  /** An immutable rule. A datatype value cannot be changed after it is
      built, and its destructors return exactly the constructor arguments,
      which is what the getters of both C# classes do. Probabilities are
      exact reals: the float32 rounding of the source is not modelled. */
  datatype Production = Production(predecessor: string, successor: string, probability: real)

  /** `Dictionary<string, List<Production>>`. */
  type Table = map<string, seq<Production>>

  /** One insertion as `ProductionRuleSet.Add` and the parser do it: the rule
      goes to the end of its predecessor's list, a list is created for a new
      predecessor, and every other list is left alone. */
  function Insert(t: Table, p: Production): (r: Table)
    ensures r.Keys == t.Keys + {p.predecessor}
    ensures r[p.predecessor] == (if p.predecessor in t then t[p.predecessor] else []) + [p]
    ensures forall k :: k in t && k != p.predecessor ==> r[k] == t[k]
  {
    t[p.predecessor := (if p.predecessor in t then t[p.predecessor] else []) + [p]]
  }

  /** The table built by inserting `rules` one after the other. */
  function Group(rules: seq<Production>): Table {
    if rules == [] then map[] else Insert(Group(rules[..|rules| - 1]), rules[|rules| - 1])
  }

  /** The rules with predecessor `m`, in their original order. */
  function RulesFor(rules: seq<Production>, m: string): seq<Production> {
    if rules == [] then []
    else
      var last := rules[|rules| - 1];
      RulesFor(rules[..|rules| - 1], m) + (if last.predecessor == m then [last] else [])
  }

  /** `m` is the predecessor of some rule in `rules`. */
  predicate Mentions(rules: seq<Production>, m: string) {
    exists i :: 0 <= i < |rules| && rules[i].predecessor == m
  }

  lemma {:induction false} MentionsLast(rules: seq<Production>, m: string)
    requires rules != []
    ensures Mentions(rules, m) <==>
      Mentions(rules[..|rules| - 1], m) || rules[|rules| - 1].predecessor == m
  {
    var init := rules[..|rules| - 1];
    if Mentions(rules, m) {
      var i :| 0 <= i < |rules| && rules[i].predecessor == m;
      if i < |init| { assert init[i] == rules[i]; }
    }
    if Mentions(init, m) {
      var i :| 0 <= i < |init| && init[i].predecessor == m;
      assert rules[i] == init[i];
    }
  }

  /** Grouping keeps a key exactly for each predecessor that occurs, and
      the list under that key is the rules with that predecessor, in the
      order in which they were inserted (so no list is empty). */
  lemma {:induction false} GroupIsFilter(rules: seq<Production>, m: string)
    ensures m in Group(rules) <==> Mentions(rules, m)
    ensures m in Group(rules) ==> Group(rules)[m] == RulesFor(rules, m) && Group(rules)[m] != []
    ensures m !in Group(rules) ==> RulesFor(rules, m) == []
  {
    if rules != [] {
      GroupIsFilter(rules[..|rules| - 1], m);
      MentionsLast(rules, m);
    }
  }

  /** Every rule `RulesFor` keeps has the predecessor asked for. */
  lemma {:induction false} RulesForPredecessor(rules: seq<Production>, m: string)
    ensures forall i :: 0 <= i < |RulesFor(rules, m)| ==> RulesFor(rules, m)[i].predecessor == m
  {
    if rules != [] {
      RulesForPredecessor(rules[..|rules| - 1], m);
    }
  }

  /** The sum of the probabilities of a list, accumulated left to right as
      the `acc` loops of both `CheckProbabilities` do. */
  function SumOf(list: seq<Production>): real {
    if list == [] then 0.0 else SumOf(list[..|list| - 1]) + list[|list| - 1].probability
  }

  /** What both `CheckProbabilities` accept: every list sums exactly to 1. */
  predicate ProbabilitiesValid(t: Table) {
    forall k :: k in t ==> SumOf(t[k]) == 1.0
  }

  /** What a matcher returns: null for a symbol without rules, the chosen
      rule, or `NothingSelected` where the C# code throws
      `Exception("Should never happen!")`. */
  datatype Selection = NoRules | Selected(production: Production) | NothingSelected

  /** A list sums its probabilities left to right: the sum of a longer
      prefix is the sum of the shorter one plus the next probability. */
  lemma SumOfNext(list: seq<Production>, j: nat)
    requires j < |list|
    ensures SumOf(list[..j + 1]) == SumOf(list[..j]) + list[j].probability
  {
    assert list[..j + 1][..j] == list[..j];
  }

  /** The accumulation loop of both `CheckProbabilities`. */
  method SumProbabilities(list: seq<Production>) returns (acc: real)
    ensures acc == SumOf(list)
  {
    acc := 0.0;
    var j := 0;
    while j < |list|
      invariant 0 <= j <= |list|
      invariant acc == SumOf(list[..j])
    {
      SumOfNext(list, j);
      acc := acc + list[j].probability;
      j := j + 1;
    }
    assert list[..j] == list;
  }
}
